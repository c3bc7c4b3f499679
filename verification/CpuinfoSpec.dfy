/** The LeWI CPU table (src/LB_comm/shmem_cpuinfo.c): the operations on one CPU. */
module CpuinfoSpec {
  import opened Codes

  type Pid = p: nat | p != NOBODY witness 1

  datatype CpuState = Disabled | Busy | Lent

  /** cpuinfo_t; the position in the table is its id. */
  datatype Cpu = Cpu(owner: nat, guest: nat, state: CpuState, requests: seq<Pid>)

  /** lewi_mask_request_t */
  datatype Petition = Petition(pid: Pid, howmany: nat, allowed: set<nat>)

  datatype Action = Enable | Disable

  datatype Task = Task(action: Action, pid: nat, cpu: nat)

  /** shdata_t, the topology of the node, and the tasks produced by the running call. The core of
      CPU c is core[c]. */
  datatype State = State(core: seq<nat>, smt: bool, queues: bool, cpus: seq<Cpu>, free: set<nat>,
                         occupied: set<nat>, petitions: seq<Petition>, tasks: seq<Task>)

  const REQUESTS_CAPACITY := 7
  const PETITIONS_CAPACITY := 1023

  predicate Has(s: State, c: nat) {
    |s.core| == |s.cpus| && c < |s.cpus|
  }

  predicate SameTopology(s: State, t: State) {
    t.core == s.core && t.smt == s.smt && t.queues == s.queues && |t.cpus| == |s.cpus|
  }

  predicate SameCore(core: seq<nat>, c: nat, d: nat)
    requires c < |core| && d < |core|
  {
    core[c] == core[d]
  }

  function CoreMask(s: State, c: nat): set<nat>
    requires c < |s.core|
  {
    set d | 0 <= d < |s.core| && s.core[d] == s.core[c]
  }

  function Put(s: State, c: nat, cpu: Cpu): State
    requires c < |s.cpus|
  {
    s.(cpus := s.cpus[c := cpu])
  }

  function Push(s: State, action: Action, pid: nat, c: nat): State {
    s.(tasks := s.tasks + [Task(action, pid, c)])
  }

  /** queue_pid_t_remove */
  function Without(q: seq<Pid>, pid: Pid): seq<Pid> {
    if q == [] then [] else if q[0] == pid then Without(q[1..], pid) else [q[0]] + Without(q[1..], pid)
  }

  function Enqueued(q: seq<Pid>, pid: Pid): seq<Pid> {
    if |q| < REQUESTS_CAPACITY then q + [pid] else q
  }

  // ---------------------------------------------------------------- core queries

  /** What one CPU of the core has to satisfy for pid to be allowed in. */
  predicate Admits(cpu: Cpu, pid: Pid) {
    (cpu.guest == pid || cpu.guest == NOBODY) && (cpu.state == Busy ==> cpu.owner == pid)
  }

  /** core_is_eligible */
  predicate CoreIsEligible(s: State, pid: Pid, c: nat)
    requires Has(s, c)
  {
    if s.smt then forall d :: 0 <= d < |s.cpus| && SameCore(s.core, c, d) ==> Admits(s.cpus[d], pid)
    else s.cpus[c].owner == pid || s.cpus[c].guest == pid || s.cpus[c].guest == NOBODY
  }

  /** cpu_is_occupied */
  predicate Occupied(cpu: Cpu, owner: nat) {
    owner != NOBODY && cpu.guest != NOBODY && cpu.guest != owner
  }

  /** core_is_occupied */
  predicate CoreIsOccupied(s: State, owner: nat, c: nat)
    requires Has(s, c)
  {
    if s.smt then exists d :: 0 <= d < |s.cpus| && SameCore(s.core, c, d) && Occupied(s.cpus[d], owner)
    else Occupied(s.cpus[c], owner)
  }

  /** The new value of occupied_cores after update_occupied_cores. */
  function UpdatedOccupied(s: State, owner: nat, c: nat): set<nat>
    requires Has(s, c)
  {
    if s.smt then
      if Occupied(s.cpus[c], owner) then
        if c in s.occupied then s.occupied else s.occupied + CoreMask(s, c)
      else if c !in s.occupied then s.occupied
      else if CoreIsOccupied(s, owner, c) then s.occupied + CoreMask(s, c)
      else s.occupied - CoreMask(s, c)
    else if Occupied(s.cpus[c], owner) then s.occupied + {c}
    else s.occupied - {c}
  }

  function UpdateOccupied(s: State, owner: nat, c: nat): State
    requires Has(s, c)
  {
    s.(occupied := UpdatedOccupied(s, owner, c))
  }

  // ---------------------------------------------------------------- finding a guest

  /** The first request from position i on whose process may use CPU c. */
  function FirstRequest(s: State, c: nat, i: nat): (r: nat)
    requires Has(s, c) && i <= |s.cpus[c].requests|
    ensures i <= r <= |s.cpus[c].requests|
    ensures r < |s.cpus[c].requests| ==> CoreIsEligible(s, s.cpus[c].requests[r], c)
    ensures forall k :: i <= k < r ==> !CoreIsEligible(s, s.cpus[c].requests[k], c)
    decreases |s.cpus[c].requests| - i
  {
    if i == |s.cpus[c].requests| || CoreIsEligible(s, s.cpus[c].requests[i], c) then i
    else FirstRequest(s, c, i + 1)
  }

  function FirstPetition(s: State, c: nat, i: nat): (r: nat)
    requires Has(s, c) && i <= |s.petitions|
    ensures i <= r <= |s.petitions|
    ensures r < |s.petitions| ==> c in s.petitions[r].allowed && CoreIsEligible(s, s.petitions[r].pid, c)
    ensures forall k :: i <= k < r ==> c !in s.petitions[k].allowed || !CoreIsEligible(s, s.petitions[k].pid, c)
    decreases |s.petitions| - i
  {
    if i == |s.petitions| || (c in s.petitions[i].allowed && CoreIsEligible(s, s.petitions[i].pid, c)) then i
    else FirstPetition(s, c, i + 1)
  }

  /** One CPU of the petition at i is granted. */
  function Granted(petitions: seq<Petition>, i: nat): seq<Petition>
    requires i < |petitions|
  {
    if petitions[i].howmany <= 1 then petitions[..i] + petitions[i + 1..]
    else petitions[i := petitions[i].(howmany := petitions[i].howmany - 1)]
  }

  /** find_new_guest, with the queues it leaves. */
  function FindNewGuest(s: State, c: nat): (r: (nat, State))
    requires Has(s, c)
    ensures SameTopology(s, r.1)
  {
    var cpu := s.cpus[c];
    if cpu.state == Busy then (cpu.owner, s)
    else if !s.queues then (NOBODY, s)
    else
      var i := FirstRequest(s, c, 0);
      if i < |cpu.requests| then
        (cpu.requests[i], Put(s, c, cpu.(requests := cpu.requests[..i] + cpu.requests[i + 1..])))
      else
        var j := FirstPetition(s, c, 0);
        if j < |s.petitions| then (s.petitions[j].pid, s.(petitions := Granted(s.petitions, j)))
        else (NOBODY, s)
  }

  /** Give CPU c to a new guest, if there is one. */
  function Refill(s: State, c: nat): (t: State)
    requires Has(s, c)
    ensures SameTopology(s, t)
  {
    var (guest, t) := FindNewGuest(s, c);
    if guest == NOBODY then t else Push(Put(t, c, t.cpus[c].(guest := guest)), Enable, guest, c)
  }

  // ---------------------------------------------------------------- lend

  /** The rest of the core of c, from d on: every CPU without guest may find one now. */
  function FillCore(s: State, c: nat, d: nat): (t: State)
    requires Has(s, c)
    ensures SameTopology(s, t)
    decreases |s.cpus| - d
  {
    if d >= |s.cpus| then s else FillCore(FillOne(s, c, d), c, d + 1)
  }

  function FillOne(s: State, c: nat, d: nat): (t: State)
    requires Has(s, c) && d < |s.cpus|
    ensures SameTopology(s, t)
  {
    if d == c || !SameCore(s.core, c, d) || s.cpus[d].guest != NOBODY then s
    else
      var t := Refill(s, d);
      if t.cpus[d].guest != NOBODY then t.(free := t.free - {d}) else t
  }

  /** The first part of lend_cpu: pid stops using CPU c. */
  function LetGo(cpu: Cpu, pid: Pid, queues: bool): Cpu {
    var cpu1 := if cpu.owner == pid then cpu.(state := Lent)
                else if queues then cpu.(requests := Without(cpu.requests, pid))
                else cpu;
    if cpu1.guest == pid then cpu1.(guest := NOBODY) else cpu1
  }

  /** The second part: a CPU left without guest looks for one, and then so does its core. */
  function Rehost(s: State, c: nat): (t: State)
    requires Has(s, c)
    ensures SameTopology(s, t)
  {
    if s.cpus[c].guest != NOBODY then s
    else
      var t := Refill(s, c);
      if t.cpus[c].guest == NOBODY then t.(free := t.free + {c}) else FillCore(t, c, 0)
  }

  /** lend_cpu */
  function LendCpu(s: State, pid: Pid, c: nat): (t: State)
    requires Has(s, c)
    ensures SameTopology(s, t)
  {
    if s.cpus[c].state == Disabled then s
    else
      var t := Rehost(Put(s, c, LetGo(s.cpus[c], pid, s.queues)), c);
      UpdateOccupied(t, t.cpus[c].owner, c)
  }

  // ---------------------------------------------------------------- reclaim, acquire, borrow

  /** reclaim_cpu */
  function ReclaimCpu(s: State, pid: Pid, c: nat): (r: (State, Code))
    requires Has(s, c)
    ensures SameTopology(s, r.0)
  {
    var cpu := s.cpus[c];
    if cpu.owner != pid then (s, ErrPerm)
    else if cpu.guest == pid then (Put(s, c, cpu.(state := Busy)), NoUpdt)
    else if cpu.guest == NOBODY then
      (Push(Put(s, c, cpu.(state := Busy, guest := pid)).(free := s.free - {c}), Enable, pid, c), Success)
    else (Push(Push(Put(s, c, cpu.(state := Busy)), Disable, cpu.guest, c), Enable, pid, c), Noted)
  }

  /** acquire_cpu */
  function AcquireCpu(s: State, pid: Pid, c: nat): (r: (State, Code))
    requires Has(s, c)
    ensures SameTopology(s, r.0)
  {
    var cpu := s.cpus[c];
    if cpu.guest == pid then (s, NoUpdt)
    else if cpu.owner == pid then
      if cpu.guest == NOBODY then
        (Push(Put(s, c, cpu.(state := Busy, guest := pid)).(free := s.free - {c}), Enable, pid, c), Success)
      else
        var t := Push(Push(Put(s, c, cpu.(state := Busy)), Disable, cpu.guest, c), Enable, pid, c);
        (if c in s.occupied then t else UpdateOccupied(t, pid, c), Noted)
    else if cpu.guest == NOBODY && cpu.state == Lent && CoreIsEligible(s, pid, c) then (Hosted(s, pid, c), Success)
    else if s.queues then
      if |cpu.requests| < REQUESTS_CAPACITY then (Put(s, c, cpu.(requests := cpu.requests + [pid])), Noted)
      else (s, ErrReqst)
    else if cpu.state != Disabled then (s, NoUpdt)
    else (s, ErrPerm)
  }

  /** pid becomes the guest of an available CPU. */
  function Hosted(s: State, pid: Pid, c: nat): (t: State)
    requires Has(s, c)
    ensures SameTopology(s, t)
  {
    var cpu := s.cpus[c];
    var t := Push(Put(s, c, cpu.(guest := pid)).(free := s.free - {c}), Enable, pid, c);
    if cpu.owner != NOBODY && c !in s.occupied then UpdateOccupied(t, cpu.owner, c) else t
  }

  /** borrow_cpu */
  function BorrowCpu(s: State, pid: Pid, c: nat): (r: (State, Code))
    requires Has(s, c)
    ensures SameTopology(s, r.0)
  {
    var cpu := s.cpus[c];
    if cpu.state == Disabled then (s, ErrPerm)
    else if cpu.guest != NOBODY || !CoreIsEligible(s, pid, c) then (s, NoUpdt)
    else if cpu.owner == pid then
      (Push(Put(s, c, cpu.(state := Busy, guest := pid)).(free := s.free - {c}), Enable, pid, c), Success)
    else if cpu.state == Lent then (Hosted(s, pid, c), Success)
    else (s, NoUpdt)
  }

  // ---------------------------------------------------------------- return

  /** The guest of c leaves it: to its owner if reclaimed, else idle. */
  function Vacated(s: State, c: nat): (t: State)
    requires Has(s, c)
    ensures SameTopology(s, t)
  {
    var cpu := s.cpus[c];
    var t := if cpu.state == Busy then Put(s, c, cpu.(guest := cpu.owner))
             else Put(s, c, cpu.(guest := NOBODY)).(free := s.free + {c});
    UpdateOccupied(t, cpu.owner, c)
  }

  predicate Keeps(s: State, pid: Pid, c: nat)
    requires Has(s, c)
  {
    var cpu := s.cpus[c];
    cpu.owner == pid || cpu.guest != pid || (cpu.state == Lent && CoreIsEligible(s, pid, c))
  }

  /** return_cpu */
  function ReturnCpu(s: State, pid: Pid, c: nat): (r: (State, Code))
    requires Has(s, c)
    ensures SameTopology(s, r.0)
  {
    if Keeps(s, pid, c) then (s, NoUpdt)
    else (Push(Vacated(s, c), Disable, pid, c), Success)
  }

  /** shmem_cpuinfo__return_async */
  function ReturnAsync(s: State, pid: Pid, c: nat): (t: State)
    requires Has(s, c)
    ensures SameTopology(s, t)
  {
    var t := Vacated(s, c);
    Put(t, c, t.cpus[c].(requests := Enqueued(t.cpus[c].requests, pid)))
  }

  // ---------------------------------------------------------------- register and leave

  function Registered(cpu: Cpu, pid: Pid, pre: nat): Cpu {
    cpu.(owner := pid, state := Busy, guest := if cpu.guest == NOBODY || cpu.guest == pre then pid else cpu.guest)
  }

  /** register_cpu */
  function RegisterCpu(s: State, pid: Pid, pre: nat, c: nat): (t: State)
    requires Has(s, c)
    ensures SameTopology(s, t)
  {
    UpdateOccupied(Put(s, c, Registered(s.cpus[c], pid, pre)).(free := s.free - {c}), pid, c)
  }

  /** A CPU that will not be public is reclaimed, emptied of its owner and disabled. */
  function ShutCpu(s: State, pid: Pid, c: nat): (t: State)
    requires Has(s, c)
    ensures SameTopology(s, t)
  {
    var t := ReclaimCpu(s, pid, c).0;
    var cpu := t.cpus[c];
    Put(t, c, cpu.(guest := if cpu.guest == pid then NOBODY else cpu.guest, state := Disabled)).(free := t.free - {c})
  }

  function Orphaned(s: State, c: nat): (t: State)
    requires Has(s, c)
    ensures SameTopology(s, t)
  {
    Put(s, c, s.cpus[c].(owner := NOBODY)).(occupied := s.occupied - {c})
  }

  /** shmem_cpuinfo__deregister on CPU c; public says whether the CPUs of pid outlive it. */
  function LeaveCpu(s: State, pid: Pid, public: bool, c: nat): (t: State)
    requires Has(s, c)
    ensures SameTopology(s, t)
  {
    if s.cpus[c].owner == pid then Orphaned(if public then LendCpu(s, pid, c) else ShutCpu(s, pid, c), c)
    else if s.cpus[c].guest == pid then LendCpu(s, pid, c)
    else s
  }

  /** deregister_cpu, the direct path */
  function ForgetCpu(s: State, pid: Pid, public: bool, c: nat): (t: State)
    requires Has(s, c)
    ensures SameTopology(s, t)
  {
    var cpu := s.cpus[c];
    if cpu.owner == pid then
      var guest := if cpu.guest == pid then NOBODY else cpu.guest;
      var t := if public then
                 Put(s, c, cpu.(owner := NOBODY, guest := guest, state := Lent))
                 .(free := if guest == NOBODY then s.free + {c} else s.free)
               else Put(s, c, cpu.(owner := NOBODY, guest := guest, state := Disabled, requests := [])).(free := s.free - {c});
      t.(occupied := s.occupied - CoreMask(s, c))
    else
      var requests := if s.queues then Without(cpu.requests, pid) else cpu.requests;
      if cpu.guest == pid then Put(s, c, cpu.(guest := NOBODY, requests := requests)).(free := s.free + {c})
      else Put(s, c, cpu.(requests := requests))
  }

  // ---------------------------------------------------------------- ownership transfer, availability

  /** shmem_cpuinfo__update_ownership on CPU c; mine says whether c is in the new process mask. */
  function OwnCpu(s: State, pid: Pid, mine: bool, c: nat): (t: State)
    requires Has(s, c)
    ensures SameTopology(s, t)
  {
    var cpu := s.cpus[c];
    if mine then
      if cpu.owner == pid then s
      else if cpu.guest == NOBODY then
        Push(Put(s, c, cpu.(owner := pid, state := Busy, guest := pid))
             .(free := s.free - {c}, occupied := s.occupied - {c}), Enable, pid, c)
      else
        var t := Put(s, c, cpu.(owner := pid, state := Busy));
        Push(if cpu.guest != pid then Push(t, Disable, cpu.guest, c) else t, Enable, pid, c)
    else if cpu.owner == pid then
      if cpu.guest == pid then
        Push(Put(s, c, cpu.(owner := NOBODY, state := Disabled, guest := NOBODY)), Disable, pid, c).(free := s.free - {c})
      else Put(s, c, cpu.(owner := NOBODY, state := Disabled))
    else if cpu.guest == pid && cpu.state == Busy then ReturnCpu(s, pid, c).0
    else s
  }

  /** shmem_cpuinfo__check_cpu_availability */
  function CheckCpu(s: State, pid: Pid, c: nat): (r: (State, Code))
    requires Has(s, c)
    ensures SameTopology(s, r.0)
  {
    var cpu := s.cpus[c];
    if cpu.owner != pid && cpu.state != Lent then (s, ErrPerm)
    else if cpu.guest == pid then (s, Success)
    else if cpu.guest == NOBODY then (Put(s, c, cpu.(guest := pid)).(free := s.free - {c}), Success)
    else if cpu.owner == pid && cpu.state == Lent then (s, NoUpdt)
    else (s, Noted)
  }

  /** Remove the requests of pid from CPU c, as deregister and reset do for CPUs pid does not own. */
  function WithdrawCpu(s: State, pid: Pid, c: nat): (t: State)
    requires Has(s, c)
    ensures SameTopology(s, t)
  {
    if s.queues && s.cpus[c].owner != pid then
      Put(s, c, s.cpus[c].(requests := Without(s.cpus[c].requests, pid)))
    else s
  }
}
