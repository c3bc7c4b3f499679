/** The locked operations of the CPU table on sets, arrays and whole processes, built from the
    operations on one CPU (src/LB_comm/shmem_cpuinfo.c). */
module CpuinfoOps {
  import opened Codes
  import opened CpuinfoSpec
  import opened CpuinfoActs

  // ---------------------------------------------------------------- lend

  /** shmem_cpuinfo__lend_cpu_mask from CPU c on */
  function LendMask(s: State, pid: Pid, mask: set<nat>, c: nat): (t: State)
    requires |s.core| == |s.cpus|
    ensures SameTopology(s, t)
    decreases |s.cpus| - c
  {
    if c >= |s.cpus| then s
    else LendMask(if c in mask then LendCpu(s, pid, c) else s, pid, mask, c + 1)
  }

  // ---------------------------------------------------------------- reclaim

  /** Noted has the highest priority, then Success; the rest do not count. */
  function Best(code: Code, local: Code): Code {
    if local == Noted then Noted
    else if local == Success then if code == Noted then Noted else Success
    else code
  }

  /** The loop of shmem_cpuinfo__reclaim_all over the CPUs of a set, from c on. */
  function ReclaimOwned(s: State, pid: Pid, todo: set<nat>, code: Code, c: nat): (r: (State, Code))
    requires |s.core| == |s.cpus|
    ensures SameTopology(s, r.0)
    decreases |s.cpus| - c
  {
    if c >= |s.cpus| then (s, code)
    else if c in todo && s.cpus[c].owner == pid && s.cpus[c].guest != pid then
      var (t, local) := ReclaimCpu(s, pid, c);
      ReclaimOwned(t, pid, todo, Best(code, local), c + 1)
    else ReclaimOwned(s, pid, todo, code, c + 1)
  }

  /** shmem_cpuinfo__reclaim_all */
  function ReclaimAll(s: State, pid: Pid): (State, Code)
    requires |s.core| == |s.cpus|
  {
    ReclaimOwned(s, pid, s.free + s.occupied, NoUpdt, 0)
  }

  /** An error has the highest priority, then Noted, then Success. */
  function Worst(code: Code, local: Code): Code {
    if local == ErrPerm then ErrPerm
    else if local == Noted then if code.IsError() then code else Noted
    else if local == Success then if code == NoUpdt then Success else code
    else code
  }

  function ReclaimEach(s: State, pid: Pid, todo: set<nat>, code: Code, c: nat): (r: (State, Code))
    requires |s.core| == |s.cpus|
    ensures SameTopology(s, r.0)
    decreases |s.cpus| - c
  {
    if c >= |s.cpus| then (s, code)
    else if c in todo then
      var (t, local) := ReclaimCpu(s, pid, c);
      ReclaimEach(t, pid, todo, Worst(code, local), c + 1)
    else ReclaimEach(s, pid, todo, code, c + 1)
  }

  /** shmem_cpuinfo__reclaim_cpu_mask */
  function ReclaimMask(s: State, pid: Pid, mask: set<nat>): (State, Code)
    requires |s.core| == |s.cpus|
  {
    ReclaimEach(s, pid, (s.free + s.occupied) * mask, NoUpdt, 0)
  }

  /** The other CPUs of a core whose CPU c was reclaimed from a guest have to be disabled too. */
  function DisableRest(s: State, pid: Pid, c: nat, d: nat): (t: State)
    requires Has(s, c)
    ensures SameTopology(s, t)
    decreases |s.cpus| - d
  {
    if d >= |s.cpus| then s
    else if d != c && SameCore(s.core, c, d) && s.cpus[d].guest != pid then
      DisableRest(CpuinfoSpec.Push(s, Disable, s.cpus[d].guest, d), pid, c, d + 1)
    else DisableRest(s, pid, c, d + 1)
  }

  /** shmem_cpuinfo__reclaim_cpu */
  function ReclaimOne(s: State, pid: Pid, c: nat): (r: (State, Code))
    requires |s.core| == |s.cpus|
    ensures SameTopology(s, r.0)
  {
    if c >= |s.cpus| then (s, ErrPerm)
    else
      var (t, code) := ReclaimCpu(s, pid, c);
      (if code == Noted && s.smt then DisableRest(t, pid, c, 0) else t, code)
  }

  // ---------------------------------------------------------------- acquire and borrow

  datatype Wish = Acquiring | Borrowing | Reclaiming

  function Attempt(s: State, pid: Pid, wish: Wish, c: nat): (r: (State, Code))
    requires Has(s, c)
    ensures SameTopology(s, r.0)
  {
    match wish
    case Acquiring => AcquireCpu(s, pid, c)
    case Borrowing => BorrowCpu(s, pid, c)
    case Reclaiming => ReclaimCpu(s, pid, c)
  }

  predicate Got(code: Code) {
    code == Success || code == Noted
  }

  function Merged(code: Code, local: Code): Code {
    if Got(local) && code != Noted then local else code
  }

  datatype Batch = Batch(state: State, code: Code, count: int)

  /** acquire_core, borrow_core and reclaim_core from CPU c on: stop at the first CPU of the core that
      can be neither obtained nor is already held. The count is of the CPUs obtained. */
  function TakeCore(s: State, pid: Pid, wish: Wish, core: nat, c: nat, code: Code, count: int): (r: Batch)
    requires |s.core| == |s.cpus|
    ensures SameTopology(s, r.state)
    decreases |s.cpus| - c
  {
    if c >= |s.cpus| then Batch(s, code, count)
    else if s.core[c] != core then TakeCore(s, pid, wish, core, c + 1, code, count)
    else
      var (t, local) := Attempt(s, pid, wish, c);
      if Got(local) then TakeCore(t, pid, wish, core, c + 1, Merged(code, local), count + 1)
      else if t.cpus[c].guest == pid then TakeCore(t, pid, wish, core, c + 1, code, count)
      else Batch(t, code, count)
  }

  /** acquire_cpus_in_array_cpuid_t and borrow_cpus_in_array_cpuid_t from position i on, with count CPUs
      still wanted. A set of CPUs is walked as its ascending array. */
  function TakeArray(s: State, pid: Pid, wish: Wish, list: seq<nat>, i: nat, count: int, prev: int,
      code: Code): (r: Batch)
    requires |s.core| == |s.cpus| && forall k :: 0 <= k < |list| ==> list[k] < |s.cpus|
    ensures SameTopology(s, r.state)
    decreases |list| - i
  {
    if count <= 0 || i >= |list| then Batch(s, code, count)
    else
      var c := list[i];
      if !s.smt then
        var (t, local) := Attempt(s, pid, wish, c);
        TakeArray(t, pid, wish, list, i + 1, if Got(local) then count - 1 else count, prev, Merged(code, local))
      else if prev == s.core[c] then TakeArray(s, pid, wish, list, i + 1, count, prev, code)
      else
        var b := TakeCore(s, pid, wish, s.core[c], 0, NoUpdt, 0);
        TakeArray(b.state, pid, wish, list, i + 1, if Got(b.code) then count - b.count else count, s.core[c],
                  Merged(code, b.code))
  }

  predicate InTable(s: State, list: seq<nat>) {
    forall k :: 0 <= k < |list| ==> list[k] < |s.cpus|
  }

  /** Borrow from the priority array, and then, for --priority=spread-ifempty, from whole free nodes. */
  function BorrowWanted(s: State, pid: Pid, wanted: int, list: seq<nat>, spread: bool,
      freeNodes: State -> seq<nat>): (r: (State, Code))
    requires |s.core| == |s.cpus| && InTable(s, list)
  {
    var b := TakeArray(s, pid, Borrowing, list, 0, wanted, -1, NoUpdt);
    if spread && b.count > 0 && InTable(b.state, freeNodes(b.state)) then
      var n := TakeArray(b.state, pid, Borrowing, freeNodes(b.state), 0, b.count, -1, NoUpdt);
      (n.state, if n.code == Success then Success else b.code)
    else (b.state, b.code)
  }

  /** The locked part of shmem_cpuinfo__borrow_ncpus_from_cpu_subset */
  function BorrowNcpus(s: State, pid: Pid, wanted: int, list: seq<nat>, spread: bool,
      freeNodes: State -> seq<nat>): (State, Code)
    requires |s.core| == |s.cpus| && InTable(s, list)
  {
    BorrowWanted(s, pid, if s.free == {} then 0 else wanted, list, spread, freeNodes)
  }

  /** shmem_cpuinfo__reclaim_cpus over the cores from core on */
  function ReclaimCpus(s: State, pid: Pid, count: int, cores: nat, core: nat, code: Code): (r: (State, Code))
    requires |s.core| == |s.cpus|
    ensures SameTopology(s, r.0)
    decreases cores - core
  {
    if count <= 0 || core >= cores then (s, code)
    else
      var b := TakeCore(s, pid, Reclaiming, core, 0, NoUpdt, 0);
      ReclaimCpus(b.state, pid, if Got(b.code) then count - b.count else count, cores, core + 1, Best(code, b.code))
  }

  datatype Kind = OwnedIdle | OwnedInUse | NotOwned

  predicate OfKind(cpu: Cpu, pid: Pid, kind: Kind) {
    cpu.state != Disabled &&
    match kind
    case OwnedIdle => cpu.owner == pid && cpu.guest == NOBODY
    case OwnedInUse => cpu.owner == pid && cpu.guest != NOBODY && cpu.guest != pid
    case NotOwned => cpu.owner != pid && cpu.guest == NOBODY
  }

  /** The CPUs of a list, in order, that are of a kind. */
  function Select(s: State, pid: Pid, list: seq<nat>, kind: Kind): (r: seq<nat>)
    requires InTable(s, list)
    ensures InTable(s, r)
  {
    SelectFirst(s, pid, list, kind, |list|)
  }

  function SelectFirst(s: State, pid: Pid, list: seq<nat>, kind: Kind, n: nat): (r: seq<nat>)
    requires InTable(s, list) && n <= |list|
    ensures InTable(s, r)
  {
    if n == 0 then []
    else
      var r := SelectFirst(s, pid, list, kind, n - 1);
      if OfKind(s.cpus[list[n - 1]], pid, kind) then r + [list[n - 1]] else r
  }

  /** A petition for more CPUs: added to the one with the same process and CPUs, or queued. */
  function Posted(q: seq<Petition>, p: Petition, i: nat): (r: (seq<Petition>, Code))
    decreases |q| - i
  {
    if i >= |q| then if |q| < PETITIONS_CAPACITY then (q + [p], Noted) else (q, ErrReqst)
    else if q[i].pid == p.pid && q[i].allowed == p.allowed then (q[i := q[i].(howmany := q[i].howmany + p.howmany)], Noted)
    else Posted(q, p, i + 1)
  }

  /** Requests of pid on every CPU of the list that it neither owns nor guests. */
  function AskEach(s: State, pid: Pid, list: seq<nat>, i: nat, code: Code): (r: (State, Code))
    requires |s.core| == |s.cpus| && InTable(s, list)
    ensures SameTopology(s, r.0)
    decreases |list| - i
  {
    if i >= |list| then (s, code)
    else
      var cpu := s.cpus[list[i]];
      if (cpu.state == Disabled || (cpu.owner != pid && cpu.guest != pid)) &&
         pid !in cpu.requests && |cpu.requests| < REQUESTS_CAPACITY
      then AskEach(Put(s, list[i], cpu.(requests := cpu.requests + [pid])), pid, list, i + 1, Noted)
      else AskEach(s, pid, list, i + 1, code)
  }

  /** The locked part of shmem_cpuinfo__acquire_ncpus_from_cpu_subset: owned idle CPUs first, then owned
      CPUs in use, then other CPUs, and in asynchronous mode a petition for what is missing. */
  function AcquireNcpus(s: State, pid: Pid, counted: bool, wanted: int, list: seq<nat>): (r: (State, Code))
    requires |s.core| == |s.cpus| && InTable(s, list)
    ensures SameTopology(s, r.0)
  {
    var a := TakeArray(s, pid, Acquiring, Select(s, pid, list, OwnedIdle), 0, wanted, -1, NoUpdt);
    var b := TakeArray(a.state, pid, Acquiring, Select(s, pid, list, OwnedInUse), 0, a.count, -1, NoUpdt);
    var d := TakeArray(b.state, pid, Borrowing, Select(s, pid, list, NotOwned), 0, b.count, -1, NoUpdt);
    var code := Merged(Merged(a.code, b.code), d.code);
    if !s.queues then (d.state, code)
    else if !counted then AskEach(d.state, pid, list, 0, code)
    else if d.count <= 0 then (d.state, code)
    else
      var allowed := set k | 0 <= k < |list| :: list[k];
      var (q, posted) := Posted(d.state.petitions, Petition(pid, d.count, allowed), 0);
      (d.state.(petitions := q), posted)
  }

  // ---------------------------------------------------------------- return

  /** shmem_cpuinfo__return_all from CPU c on. The set walked is the one that return_cpu edits. */
  function ReturnAll(s: State, pid: Pid, code: Code, c: nat): (r: (State, Code))
    requires |s.core| == |s.cpus|
    ensures SameTopology(s, r.0)
    decreases |s.cpus| - c
  {
    if c >= |s.cpus| then (s, code)
    else if c in s.occupied then
      var (t, local) := ReturnCpu(s, pid, c);
      ReturnAll(t, pid, if local == Success && code == NoUpdt then Success else code, c + 1)
    else ReturnAll(s, pid, code, c + 1)
  }

  /** shmem_cpuinfo__return_cpu_mask on the CPUs of a fixed set. */
  function ReturnEach(s: State, pid: Pid, todo: set<nat>, code: Code, c: nat): (r: (State, Code))
    requires |s.core| == |s.cpus|
    ensures SameTopology(s, r.0)
    decreases |s.cpus| - c
  {
    if c >= |s.cpus| then (s, code)
    else if c in todo then
      var (t, local) := ReturnCpu(s, pid, c);
      ReturnEach(t, pid, todo, if code.IsError() then code else local, c + 1)
    else ReturnEach(s, pid, todo, code, c + 1)
  }

  // ---------------------------------------------------------------- processes

  /** The check of register_process: nobody else owns a CPU of the mask. */
  predicate Registrable(s: State, pid: Pid, pre: nat, mask: set<nat>) {
    forall c :: 0 <= c < |s.cpus| && c in mask ==> s.cpus[c].owner in {NOBODY, pid, pre}
  }

  function RegisterMask(s: State, pid: Pid, pre: nat, mask: set<nat>, c: nat): (t: State)
    requires |s.core| == |s.cpus|
    ensures SameTopology(s, t)
    decreases |s.cpus| - c
  {
    if c >= |s.cpus| then s
    else RegisterMask(if c in mask then RegisterCpu(s, pid, pre, c) else s, pid, pre, mask, c + 1)
  }

  /** register_process without stealing */
  function RegisterProcess(s: State, pid: Pid, pre: nat, mask: set<nat>): (r: (State, Code))
    requires |s.core| == |s.cpus|
    ensures SameTopology(s, r.0)
  {
    if mask != {} && !Registrable(s, pid, pre, mask) then (s, ErrPerm)
    else (RegisterMask(s, pid, pre, mask, 0), Success)
  }

  function LeaveFrom(s: State, pid: Pid, public: bool, c: nat): (t: State)
    requires |s.core| == |s.cpus|
    ensures SameTopology(s, t)
    decreases |s.cpus| - c
  {
    if c >= |s.cpus| then s else LeaveFrom(LeaveCpu(s, pid, public, c), pid, public, c + 1)
  }

  /** The requests of pid disappear from the global queue and from the CPUs it does not own. */
  function Withdrawn(s: State, pid: Pid): (t: State)
    requires |s.core| == |s.cpus|
    ensures SameTopology(s, t)
  {
    if !s.queues then s
    else WithdrawFrom(s.(petitions := OthersPetitions(s.petitions, pid)), pid, 0)
  }

  function OthersPetitions(q: seq<Petition>, pid: Pid): seq<Petition> {
    if q == [] then [] else (if q[0].pid == pid then [] else [q[0]]) + OthersPetitions(q[1..], pid)
  }

  function WithdrawFrom(s: State, pid: Pid, c: nat): (t: State)
    requires |s.core| == |s.cpus|
    ensures SameTopology(s, t)
    decreases |s.cpus| - c
  {
    if c >= |s.cpus| then s else WithdrawFrom(WithdrawCpu(s, pid, c), pid, c + 1)
  }

  function RemoveFrom(s: State, pid: Pid, c: nat): (t: State)
    requires |s.core| == |s.cpus|
    ensures SameTopology(s, t)
    decreases |s.cpus| - c
  {
    if c >= |s.cpus| then s
    else RemoveFrom(Put(s, c, s.cpus[c].(requests := Without(s.cpus[c].requests, pid))), pid, c + 1)
  }

  /** shmem_cpuinfo__remove_requests: those on own CPUs as well */
  function RemoveRequests(s: State, pid: Pid): (t: State)
    requires |s.core| == |s.cpus|
    ensures SameTopology(s, t)
  {
    if !s.queues then s else RemoveFrom(s.(petitions := OthersPetitions(s.petitions, pid)), pid, 0)
  }

  /** shmem_cpuinfo__deregister */
  function Deregister(s: State, pid: Pid, public: bool): (t: State)
    requires |s.core| == |s.cpus|
    ensures SameTopology(s, t)
  {
    LeaveFrom(Withdrawn(s, pid), pid, public, 0)
  }

  function ResetCpu(s: State, pid: Pid, c: nat): (t: State)
    requires Has(s, c)
    ensures SameTopology(s, t)
  {
    if s.cpus[c].owner == pid then ReclaimCpu(s, pid, c).0
    else if s.cpus[c].guest == pid then CpuinfoSpec.Push(LendCpu(s, pid, c), Disable, pid, c)
    else s
  }

  function ResetFrom(s: State, pid: Pid, c: nat): (t: State)
    requires |s.core| == |s.cpus|
    ensures SameTopology(s, t)
    decreases |s.cpus| - c
  {
    if c >= |s.cpus| then s else ResetFrom(ResetCpu(s, pid, c), pid, c + 1)
  }

  /** shmem_cpuinfo__reset */
  function Reset(s: State, pid: Pid): (t: State)
    requires |s.core| == |s.cpus|
    ensures SameTopology(s, t)
  {
    ResetFrom(Withdrawn(s, pid), pid, 0)
  }

  datatype Owned = Owned(state: State, owned: nat, guested: seq<nat>)

  function DisableLent(s: State, pid: Pid, c: nat): (t: State)
    requires Has(s, c)
    ensures SameTopology(s, t)
  {
    CpuinfoSpec.Push(LendCpu(s, pid, c), Disable, pid, c)
  }

  /** First pass of shmem_cpuinfo__update_max_parallelism: lend owned CPUs beyond max, list the guested ones. */
  function LendOwned(s: State, pid: Pid, max: nat, c: nat, owned: nat, guested: seq<nat>): (r: Owned)
    requires |s.core| == |s.cpus| && InTable(s, guested)
    ensures SameTopology(s, r.state) && InTable(s, r.guested)
    decreases |s.cpus| - c
  {
    if c >= |s.cpus| then Owned(s, owned, guested)
    else if s.cpus[c].owner == pid then
      LendOwned(if max < owned + 1 then DisableLent(s, pid, c) else s, pid, max, c + 1, owned + 1, guested)
    else if s.cpus[c].guest == pid then LendOwned(s, pid, max, c + 1, owned, guested + [c])
    else LendOwned(s, pid, max, c + 1, owned, guested)
  }

  function LendGuested(s: State, pid: Pid, max: nat, owned: nat, guested: seq<nat>, i: nat): (t: State)
    requires |s.core| == |s.cpus| && InTable(s, guested)
    ensures SameTopology(s, t)
    decreases |guested| - i
  {
    if i >= |guested| then s
    else LendGuested(if max < owned + i + 1 then DisableLent(s, pid, guested[i]) else s, pid, max, owned, guested, i + 1)
  }

  /** shmem_cpuinfo__update_max_parallelism */
  function UpdateMax(s: State, pid: Pid, max: nat): (t: State)
    requires |s.core| == |s.cpus|
    ensures SameTopology(s, t)
  {
    var r := LendOwned(s, pid, max, 0, 0, []);
    LendGuested(r.state, pid, max, r.owned, r.guested, 0)
  }

  /** shmem_cpuinfo__return_async_cpu_mask */
  function ReturnAsyncMask(s: State, pid: Pid, mask: set<nat>, c: nat): (t: State)
    requires |s.core| == |s.cpus|
    ensures SameTopology(s, t)
    decreases |s.cpus| - c
  {
    if c >= |s.cpus| then s
    else ReturnAsyncMask(if c in mask then CpuinfoSpec.ReturnAsync(s, pid, c) else s, pid, mask, c + 1)
  }

  /** The loop of deregister_process, the direct path */
  function ForgetFrom(s: State, pid: Pid, public: bool, c: nat): (t: State)
    requires |s.core| == |s.cpus|
    ensures SameTopology(s, t)
    decreases |s.cpus| - c
  {
    if c >= |s.cpus| then s else ForgetFrom(ForgetCpu(s, pid, public, c), pid, public, c + 1)
  }

  /** deregister_process */
  function ForgetProcess(s: State, pid: Pid, public: bool): (t: State)
    requires |s.core| == |s.cpus|
    ensures SameTopology(s, t)
  {
    var t := ForgetFrom(s, pid, public, 0);
    if s.queues then t.(petitions := OthersPetitions(t.petitions, pid)) else t
  }

  function AllCpus(n: nat): (r: set<nat>)
    ensures forall c: nat :: c in r <==> c < n
  {
    if n == 0 then {} else AllCpus(n - 1) + {n - 1}
  }

  /** The table that init_shmem builds: every CPU disabled, or lent when cpusets are not respected. */
  function Start(core: seq<nat>, smt: bool, respectCpuset: bool): State {
    State(core, smt, false,
          seq(|core|, _ => Cpu(NOBODY, NOBODY, if respectCpuset then CpuState.Disabled else CpuState.Lent, [])),
          if respectCpuset then {} else AllCpus(|core|), {}, [], [])
  }

  /** shmem_cpuinfo__update_ownership */
  function OwnFrom(s: State, pid: Pid, mask: set<nat>, c: nat): (t: State)
    requires |s.core| == |s.cpus|
    ensures SameTopology(s, t)
    decreases |s.cpus| - c
  {
    if c >= |s.cpus| then s else OwnFrom(OwnCpu(s, pid, c in mask, c), pid, mask, c + 1)
  }
}
