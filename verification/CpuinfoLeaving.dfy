/** Which CPUs a process still uses once reset, deregister or update_max_parallelism has lent them, CPU by
    CPU, with and without SMT, polling and asynchronous (src/LB_comm/shmem_cpuinfo.c). */
module CpuinfoLeaving {
  import opened Codes
  import opened CpuinfoSpec
  import opened CpuinfoActs
  import opened CpuinfoOps
  import opened CpuinfoOccupied

  // ---------------------------------------------------------------- who may come back

  /** No petition of pid is pending. */
  ghost predicate NoPetition(s: State, pid: Pid) {
    s.queues ==> forall k :: 0 <= k < |s.petitions| ==> s.petitions[k].pid != pid
  }

  /** No request of pid can bring CPU d back to it. A request is harmless when lending d removes it and no
      other CPU shares the core. */
  ghost predicate Calm(s: State, pid: Pid, d: nat)
    requires d < |s.cpus|
  {
    s.queues && pid in s.cpus[d].requests ==> s.cpus[d].owner != pid && OneCpuCores(s)
  }

  /** Nothing that pid has asked for can give it back a CPU that it lends: no petition, no request on its own
      CPUs, and where CPUs share cores no request at all. */
  ghost predicate Unasked(s: State, pid: Pid) {
    NoPetition(s, pid) && forall d :: 0 <= d < |s.cpus| ==> Calm(s, pid, d)
  }

  /** A reclaimed CPU of pid that nobody uses: filling its core hands it to pid. */
  ghost predicate Wakes(s: State, pid: Pid, d: nat)
    requires d < |s.cpus|
  {
    s.cpus[d].owner == pid && s.cpus[d].state == Busy && s.cpus[d].guest == NOBODY && !OneCpuCores(s)
  }

  /** The queues of t ask no more for pid than those of s. */
  ghost predicate AsksLess(s: State, t: State, pid: Pid) {
    && SameTopology(s, t) && (NoPetition(s, pid) ==> NoPetition(t, pid))
    && forall d :: 0 <= d < |s.cpus| && pid in t.cpus[d].requests ==> pid in s.cpus[d].requests
  }

  /** CPU d keeps its owner, its state and its guest, if any; it only becomes pid's by waking. */
  ghost predicate Stays(s: State, t: State, pid: Pid, d: nat)
    requires d < |s.cpus| && SameTopology(s, t)
  {
    var a, b := s.cpus[d], t.cpus[d];
    && b.owner == a.owner && b.state == a.state && (a.guest != NOBODY ==> b.guest == a.guest)
    && (b.guest == pid ==> a.guest == pid || Wakes(s, pid, d))
  }

  lemma StaysOn(s: State, t: State, u: State, pid: Pid, d: nat)
    requires d < |s.cpus| && SameTopology(s, t) && SameTopology(t, u)
    requires Stays(s, t, pid, d) && Stays(t, u, pid, d)
    ensures Stays(s, u, pid, d)
  {
  }

  lemma CalmOn(s: State, t: State, pid: Pid, d: nat)
    requires d < |s.cpus| && AsksLess(s, t, pid) && t.cpus[d].owner == s.cpus[d].owner && Calm(s, pid, d)
    ensures Calm(t, pid, d)
  {
  }

  lemma {:induction false} WithoutPid(q: seq<Pid>, pid: Pid, p: Pid)
    ensures p in Without(q, pid) <==> p in q && p != pid
  {
    if q != [] {
      WithoutPid(q[1..], pid, p);
      assert q == [q[0]] + q[1..];
    }
  }

  lemma GrantedAsksLess(q: seq<Petition>, i: nat, pid: Pid)
    requires i < |q| && forall k :: 0 <= k < |q| ==> q[k].pid != pid
    ensures forall k :: 0 <= k < |Granted(q, i)| ==> Granted(q, i)[k].pid != pid
  {
  }

  /** A search never adds to the queues, and finds pid only for its own reclaimed CPU, or because pid asked. */
  lemma FoundAsked(s: State, pid: Pid, c: nat)
    requires Has(s, c)
    ensures var (guest, t) := FindNewGuest(s, c);
      && AsksLess(s, t, pid)
      && (NoPetition(s, pid) && (s.queues ==> pid !in s.cpus[c].requests) && guest == pid ==>
            s.cpus[c].state == Busy && s.cpus[c].owner == pid)
  {
    hide CoreIsEligible;
    if s.cpus[c].state != Busy && s.queues {
      var i, j := FirstRequest(s, c, 0), FirstPetition(s, c, 0);
      hide FirstRequest, FirstPetition;
      if i == |s.cpus[c].requests| && j < |s.petitions| && NoPetition(s, pid) {
        GrantedAsksLess(s.petitions, j, pid);
      }
      hide Granted;
    }
  }

  lemma RefillAsks(s: State, pid: Pid, c: nat)
    requires Has(s, c)
    ensures AsksLess(s, Refill(s, c), pid)
    ensures s.cpus[c].guest == NOBODY && NoPetition(s, pid) && (s.queues ==> pid !in s.cpus[c].requests) ==>
      Refill(s, c).cpus[c].guest == pid ==> s.cpus[c].state == Busy && s.cpus[c].owner == pid
    ensures forall d :: 0 <= d < |s.cpus| && d != c ==> Refill(s, c).cpus[d] == s.cpus[d]
  {
    FoundAsked(s, pid, c);
    FoundGuest(s, c);
    RefillAlone(s, c);
    hide FindNewGuest, CoreIsEligible, NoPetition;
  }

  // ---------------------------------------------------------------- one lend

  lemma FillOneStays(s: State, pid: Pid, c: nat, d: nat, e: nat)
    requires Has(s, c) && d < |s.cpus| && e < |s.cpus|
    ensures AsksLess(s, FillOne(s, c, d), pid)
    ensures NoPetition(s, pid) && Calm(s, pid, e) ==> Stays(s, FillOne(s, c, d), pid, e)
  {
    FillOneRole(s, c, d, e);
    if d != c && SameCore(s.core, c, d) && s.cpus[d].guest == NOBODY {
      RefillAsks(s, pid, d);
      hide Refill, NoPetition;
      assert !OneCpuCores(s);
    }
  }

  lemma {:induction false} FillCoreStays(s: State, pid: Pid, c: nat, d: nat, e: nat)
    requires Has(s, c) && e < |s.cpus|
    ensures AsksLess(s, FillCore(s, c, d), pid)
    ensures NoPetition(s, pid) && Calm(s, pid, e) ==> Stays(s, FillCore(s, c, d), pid, e)
    decreases |s.cpus| - d
  {
    if d < |s.cpus| {
      FillOneStays(s, pid, c, d, e);
      var t := FillOne(s, c, d);
      FillOneRole(s, c, d, e);
      FillCoreStays(t, pid, c, d + 1, e);
      hide FillOne, NoPetition, OneCpuCores, Stays, Calm;
      if NoPetition(s, pid) && Calm(s, pid, e) {
        CalmOn(s, t, pid, e);
        StaysOn(s, t, FillCore(t, c, d + 1), pid, e);
      }
    }
  }

  /** Rehosting leaves every other CPU e, and gives c to pid only if pid asked for it or has reclaimed it. */
  lemma RehostStays(s: State, pid: Pid, c: nat, e: nat)
    requires Has(s, c) && e < |s.cpus|
    ensures AsksLess(s, Rehost(s, c), pid)
    ensures NoPetition(s, pid) && Calm(s, pid, e) && e != c ==> Stays(s, Rehost(s, c), pid, e)
    ensures NoPetition(s, pid) && (s.queues ==> pid !in s.cpus[c].requests) && s.cpus[c].guest != pid ==>
      Rehost(s, c).cpus[c].guest == pid ==> s.cpus[c].state == Busy && s.cpus[c].owner == pid
  {
    if s.cpus[c].guest == NOBODY {
      RefillAsks(s, pid, c);
      var t := Refill(s, c);
      FillCoreStays(t, pid, c, 0, e);
      FillCoreRole(t, c, 0, c);
      hide Refill, FillCore, NoPetition, OneCpuCores;
    }
  }

  /** Lending c leaves every other CPU as it was for pid, unless it wakes. */
  lemma LendStays(s: State, pid: Pid, c: nat, e: nat)
    requires Has(s, c) && e < |s.cpus|
    ensures AsksLess(s, LendCpu(s, pid, c), pid)
    ensures NoPetition(s, pid) && Calm(s, pid, e) && e != c ==> Stays(s, LendCpu(s, pid, c), pid, e)
  {
    if s.cpus[c].state != CpuState.Disabled {
      var s1 := Put(s, c, LetGo(s.cpus[c], pid, s.queues));
      WithoutPid(s.cpus[c].requests, pid, pid);
      RehostStays(s1, pid, c, e);
      hide Rehost, Without, UpdatedOccupied, OneCpuCores;
    }
  }

  /** Lending c itself: pid no longer uses it, unless it is disabled. */
  lemma LendLetsGo(s: State, pid: Pid, c: nat)
    requires Has(s, c) && NoPetition(s, pid) && Calm(s, pid, c)
    ensures var a, b := s.cpus[c], LendCpu(s, pid, c).cpus[c];
      && b.owner == a.owner
      && (if a.state == CpuState.Disabled then b == a
          else b.guest != pid && b.state == if a.owner == pid then Lent else a.state)
  {
    if s.cpus[c].state != CpuState.Disabled {
      var s1 := Put(s, c, LetGo(s.cpus[c], pid, s.queues));
      WithoutPid(s.cpus[c].requests, pid, pid);
      RehostStays(s1, pid, c, c);
      RehostRole(s1, c, c);
      hide Rehost, Without, UpdatedOccupied, OneCpuCores;
    }
  }

  // ---------------------------------------------------------------- withdrawing the requests

  lemma {:induction false} NobodysPetitions(q: seq<Petition>, pid: Pid)
    ensures forall k :: 0 <= k < |OthersPetitions(q, pid)| ==> OthersPetitions(q, pid)[k].pid != pid
  {
    if q != [] {
      NobodysPetitions(q[1..], pid);
    }
  }

  /** CPU d without the requests of pid, unless pid owns it. */
  function Unrequested(s: State, pid: Pid, d: nat): Cpu
    requires d < |s.cpus|
  {
    if s.queues && s.cpus[d].owner != pid then s.cpus[d].(requests := Without(s.cpus[d].requests, pid)) else s.cpus[d]
  }

  lemma {:induction false} WithdrawFromAt(s: State, pid: Pid, c: nat, d: nat)
    requires |s.core| == |s.cpus| && d < |s.cpus|
    ensures var t := WithdrawFrom(s, pid, c);
      t.cpus[d] == (if c <= d then Unrequested(s, pid, d) else s.cpus[d]) && t.petitions == s.petitions
    decreases |s.cpus| - c
  {
    hide Without;
    if c < |s.cpus| {
      WithdrawFromAt(WithdrawCpu(s, pid, c), pid, c + 1, d);
    }
  }

  /** Only requests of pid on its own CPUs survive. */
  lemma WithdrawnAt(s: State, pid: Pid, d: nat)
    requires |s.core| == |s.cpus| && d < |s.cpus|
    ensures var t := Withdrawn(s, pid); NoPetition(t, pid) && t.cpus[d] == Unrequested(s, pid, d)
    ensures s.queues && s.cpus[d].owner != pid ==> pid !in Withdrawn(s, pid).cpus[d].requests
  {
    if s.queues {
      NobodysPetitions(s.petitions, pid);
      WithdrawFromAt(s.(petitions := OthersPetitions(s.petitions, pid)), pid, 0, d);
      WithoutPid(s.cpus[d].requests, pid, pid);
      hide WithdrawFrom, OthersPetitions, Without;
    }
  }

  lemma {:induction false} RemoveFromAt(s: State, pid: Pid, c: nat, d: nat)
    requires |s.core| == |s.cpus| && d < |s.cpus|
    ensures var t := RemoveFrom(s, pid, c);
      && t.petitions == s.petitions
      && t.cpus[d] == if c <= d then s.cpus[d].(requests := Without(s.cpus[d].requests, pid)) else s.cpus[d]
    decreases |s.cpus| - c
  {
    hide Without;
    if c < |s.cpus| {
      RemoveFromAt(Put(s, c, s.cpus[c].(requests := Without(s.cpus[c].requests, pid))), pid, c + 1, d);
    }
  }

  /** remove_requests leaves nothing that could give a CPU back to pid, and changes nothing but queues. */
  lemma RemovedIsUnasked(s: State, pid: Pid)
    requires |s.core| == |s.cpus|
    ensures var t := RemoveRequests(s, pid);
      Unasked(t, pid) && forall d :: 0 <= d < |s.cpus| ==> SameRole(s.cpus[d], t.cpus[d])
  {
    if s.queues {
      NobodysPetitions(s.petitions, pid);
      var t := s.(petitions := OthersPetitions(s.petitions, pid));
      forall d | 0 <= d < |s.cpus|
        ensures SameRole(s.cpus[d], RemoveFrom(t, pid, 0).cpus[d]) && pid !in RemoveFrom(t, pid, 0).cpus[d].requests
        ensures RemoveFrom(t, pid, 0).petitions == t.petitions
      {
        RemoveFromAt(t, pid, 0, d);
        WithoutPid(s.cpus[d].requests, pid, pid);
      }
      if |s.cpus| == 0 {
        assert RemoveFrom(t, pid, 0) == t;
      }
      hide RemoveFrom, OthersPetitions, Without;
    }
  }

  // ---------------------------------------------------------------- reset

  lemma LendRole(s: State, pid: Pid, c: nat, d: nat)
    requires Has(s, c) && d < |s.cpus| && d != c
    ensures var t := LendCpu(s, pid, c);
      && t.cpus[d].owner == s.cpus[d].owner && t.cpus[d].state == s.cpus[d].state
      && (s.cpus[d].guest != NOBODY ==> t.cpus[d].guest == s.cpus[d].guest)
  {
    if s.cpus[c].state != CpuState.Disabled {
      RehostRole(Put(s, c, LetGo(s.cpus[c], pid, s.queues)), c, d);
      hide Rehost, Without, UpdatedOccupied;
    }
  }

  /** What resetting from CPU c on does to CPU d. */
  ghost predicate ResetDone(s: State, t: State, pid: Pid, c: nat, d: nat)
    requires d < |s.cpus| && SameTopology(s, t)
  {
    var a, b := s.cpus[d], t.cpus[d];
    && b.owner == a.owner
    && (if a.owner != pid then b.guest == pid <==> a.guest == pid && (d < c || a.state == CpuState.Disabled)
        else d >= c || (a.state == Busy && a.guest != NOBODY) ==> b.state == Busy && b.guest != NOBODY)
  }

  lemma ReclaimDone(s: State, pid: Pid, c: nat)
    requires Has(s, c) && s.cpus[c].owner == pid
    ensures var t := ReclaimCpu(s, pid, c).0;
      && t.petitions == s.petitions && t.cpus[c].requests == s.cpus[c].requests
      && t.cpus[c].owner == pid && t.cpus[c].state == Busy && t.cpus[c].guest != NOBODY
      && forall d :: 0 <= d < |s.cpus| && d != c ==> t.cpus[d] == s.cpus[d]
  {
  }

  /** Resetting the other CPUs leaves CPU d. */
  lemma ResetOther(s: State, pid: Pid, c: nat, d: nat)
    requires Has(s, c) && d < |s.cpus| && d != c && NoPetition(s, pid)
    ensures var a, b := s.cpus[d], ResetCpu(s, pid, c).cpus[d];
      && AsksLess(s, ResetCpu(s, pid, c), pid) && b.owner == a.owner && b.state == a.state
      && (a.guest != NOBODY ==> b.guest == a.guest)
      && (a.owner != pid && Calm(s, pid, d) ==> (b.guest == pid <==> a.guest == pid))
  {
    LendStays(s, pid, c, d);
    LendRole(s, pid, c, d);
    if s.cpus[c].owner == pid {
      ReclaimDone(s, pid, c);
    }
    hide LendCpu, OneCpuCores, ReclaimCpu;
  }

  lemma ResetSame(s: State, pid: Pid, c: nat)
    requires Has(s, c) && NoPetition(s, pid) && (s.cpus[c].owner != pid ==> Calm(s, pid, c))
    ensures var a, b := s.cpus[c], ResetCpu(s, pid, c).cpus[c];
      && AsksLess(s, ResetCpu(s, pid, c), pid) && b.owner == a.owner
      && (if a.owner == pid then b.state == Busy && b.guest != NOBODY
          else b.guest == pid <==> a.guest == pid && a.state == CpuState.Disabled)
  {
    LendStays(s, pid, c, c);
    if s.cpus[c].owner == pid {
      ReclaimDone(s, pid, c);
    } else {
      LendLetsGo(s, pid, c);
    }
    hide LendCpu, OneCpuCores, ReclaimCpu;
  }

  lemma {:induction false} ResetFromDone(s: State, pid: Pid, c: nat, d: nat)
    requires |s.core| == |s.cpus| && d < |s.cpus| && NoPetition(s, pid) && (s.cpus[d].owner != pid ==> Calm(s, pid, d))
    ensures ResetDone(s, ResetFrom(s, pid, c), pid, c, d)
    decreases |s.cpus| - c
  {
    if c < |s.cpus| {
      if d == c {
        ResetSame(s, pid, c);
      } else {
        ResetOther(s, pid, c, d);
      }
      var t := ResetCpu(s, pid, c);
      hide ResetCpu, OneCpuCores, NoPetition;
      ResetFromDone(t, pid, c + 1, d);
    }
  }

  /** After a reset, in every mode and on every topology, pid has all its CPUs reclaimed, and still uses a
      CPU that it does not own exactly when it used it and the CPU was disabled. */
  lemma ResetExact(s: State, pid: Pid, d: nat)
    requires |s.core| == |s.cpus| && d < |s.cpus|
    ensures var a, b := s.cpus[d], Reset(s, pid).cpus[d];
      && b.owner == a.owner
      && (a.owner == pid ==> b.state == Busy && b.guest != NOBODY)
      && (a.owner != pid ==> (b.guest == pid <==> a.guest == pid && a.state == CpuState.Disabled))
  {
    WithdrawnAt(s, pid, d);
    hide ResetFrom, Withdrawn, Without, OneCpuCores;
    ResetFromDone(Withdrawn(s, pid), pid, 0, d);
  }

  // ---------------------------------------------------------------- deregister

  /** pid was using the CPU while it was disabled, and the CPU is not shut down because pid owns it. */
  predicate Stuck(cpu: Cpu, pid: Pid, public: bool) {
    cpu.guest == pid && cpu.state == CpuState.Disabled && (cpu.owner == pid ==> public)
  }

  /** What leaving from CPU c on does to CPU d. */
  ghost predicate LeaveDone(s: State, t: State, pid: Pid, public: bool, c: nat, d: nat)
    requires d < |s.cpus| && SameTopology(s, t)
  {
    var a, b := s.cpus[d], t.cpus[d];
    && b.owner == (if d >= c && a.owner == pid then NOBODY else a.owner)
    && (d >= c || a.owner != pid ==> (b.guest == pid <==> if d >= c then Stuck(a, pid, public) else a.guest == pid))
  }

  /** Shutting CPU c touches it alone, and leaves it without owner and not to pid. */
  lemma ShutAlone(s: State, pid: Pid, c: nat)
    requires Has(s, c) && s.cpus[c].owner == pid
    ensures var t := Orphaned(ShutCpu(s, pid, c), c);
      && t.petitions == s.petitions && t.cpus[c].requests == s.cpus[c].requests
      && t.cpus[c].owner == NOBODY && t.cpus[c].guest != pid
      && forall d :: 0 <= d < |s.cpus| && d != c ==> t.cpus[d] == s.cpus[d]
  {
  }

  lemma OrphanedAlone(s: State, c: nat)
    requires Has(s, c)
    ensures Orphaned(s, c).cpus == s.cpus[c := s.cpus[c].(owner := NOBODY)] && Orphaned(s, c).petitions == s.petitions
  {
  }

  lemma LeaveOther(s: State, pid: Pid, public: bool, c: nat, d: nat)
    requires Has(s, c) && d < |s.cpus| && d != c && NoPetition(s, pid) && Calm(s, pid, d)
    ensures AsksLess(s, LeaveCpu(s, pid, public, c), pid) && Stays(s, LeaveCpu(s, pid, public, c), pid, d)
  {
    LendStays(s, pid, c, d);
    if s.cpus[c].owner == pid {
      ShutAlone(s, pid, c);
      OrphanedAlone(LendCpu(s, pid, c), c);
    }
    hide LendCpu, OneCpuCores, ShutCpu, Orphaned;
  }

  lemma LeaveSame(s: State, pid: Pid, public: bool, c: nat)
    requires Has(s, c) && NoPetition(s, pid) && Calm(s, pid, c)
    ensures var a, b := s.cpus[c], LeaveCpu(s, pid, public, c).cpus[c];
      && AsksLess(s, LeaveCpu(s, pid, public, c), pid)
      && b.owner == (if a.owner == pid then NOBODY else a.owner) && (b.guest == pid <==> Stuck(a, pid, public))
  {
    LendStays(s, pid, c, c);
    LendLetsGo(s, pid, c);
    if s.cpus[c].owner == pid {
      ShutAlone(s, pid, c);
      OrphanedAlone(LendCpu(s, pid, c), c);
    }
    hide LendCpu, OneCpuCores, ShutCpu, Orphaned;
  }

  lemma {:induction false} LeaveFromDone(s: State, pid: Pid, public: bool, c: nat, d: nat)
    requires |s.core| == |s.cpus| && d < |s.cpus| && NoPetition(s, pid) && Calm(s, pid, d)
    ensures LeaveDone(s, LeaveFrom(s, pid, public, c), pid, public, c, d)
    decreases |s.cpus| - c
  {
    if c < |s.cpus| {
      if d == c {
        LeaveSame(s, pid, public, c);
      } else {
        LeaveOther(s, pid, public, c, d);
      }
      hide LeaveCpu, OneCpuCores, NoPetition;
      LeaveFromDone(LeaveCpu(s, pid, public, c), pid, public, c + 1, d);
    }
  }

  /** After a deregistration pid owns nothing. In every mode and on every topology it still uses a CPU exactly
      when it is stuck on it, provided that no request of pid waits on a CPU that it owns. */
  lemma DeregisterExact(s: State, pid: Pid, public: bool, d: nat)
    requires |s.core| == |s.cpus| && d < |s.cpus|
    requires s.queues && s.cpus[d].owner == pid ==> pid !in s.cpus[d].requests
    ensures var a, b := s.cpus[d], Deregister(s, pid, public).cpus[d];
      && b.owner == (if a.owner == pid then NOBODY else a.owner)
      && (b.guest == pid <==> Stuck(a, pid, public))
  {
    WithdrawnAt(s, pid, d);
    hide LeaveFrom, Withdrawn, Without, OneCpuCores;
    LeaveFromDone(Withdrawn(s, pid), pid, public, 0, d);
  }

  /** The CPU comes back to pid when it is lent: it has no other guest and the first request for it is of pid. */
  predicate ComesBack(cpu: Cpu, pid: Pid) {
    (cpu.guest == NOBODY || cpu.guest == pid) && |cpu.requests| > 0 && cpu.requests[0] == pid
  }

  lemma LendOwnComesBack(s: State, pid: Pid, c: nat)
    requires OneCpuCores(s) && Has(s, c) && s.queues && NoPetition(s, pid)
    requires s.cpus[c].owner == pid && s.cpus[c].state != CpuState.Disabled
    ensures LendCpu(s, pid, c).cpus[c].guest == pid <==> ComesBack(s.cpus[c], pid)
  {
    var s1 := Put(s, c, LetGo(s.cpus[c], pid, s.queues));
    if s1.cpus[c].guest == NOBODY {
      FirstInRow(s1, pid, c);
      AloneInCore(Refill(s1, c), c, 0);
      hide Refill, FillCore, UpdatedOccupied;
    }
  }

  lemma FirstInRow(s: State, pid: Pid, c: nat)
    requires !s.smt && Has(s, c) && s.queues && NoPetition(s, pid) && s.cpus[c].state != Busy && s.cpus[c].guest == NOBODY
    ensures Refill(s, c).cpus[c].guest == pid <==> |s.cpus[c].requests| > 0 && s.cpus[c].requests[0] == pid
  {
    assert forall p: Pid :: CoreIsEligible(s, p, c);
    hide FirstPetition;
  }

  lemma LeaveCpuAlone(s: State, pid: Pid, public: bool, c: nat)
    requires OneCpuCores(s) && Has(s, c)
    ensures forall d :: 0 <= d < |s.cpus| && d != c ==> LeaveCpu(s, pid, public, c).cpus[d] == s.cpus[d]
  {
    if s.cpus[c].state != CpuState.Disabled {
      LendAlone(s, pid, c);
    }
    hide LendCpu;
  }

  /** pid still has its own CPU after leaving it: a public CPU that comes back, or that was disabled under pid. */
  predicate Recovered(cpu: Cpu, pid: Pid, public: bool) {
    public && if cpu.state == CpuState.Disabled then cpu.guest == pid else ComesBack(cpu, pid)
  }

  lemma LeaveOwn(s: State, pid: Pid, public: bool, c: nat)
    requires OneCpuCores(s) && Has(s, c) && s.queues && NoPetition(s, pid) && s.cpus[c].owner == pid
    ensures LeaveCpu(s, pid, public, c).cpus[c].guest == pid <==> Recovered(s.cpus[c], pid, public)
  {
    ShutAlone(s, pid, c);
    OrphanedAlone(LendCpu(s, pid, c), c);
    if s.cpus[c].state != CpuState.Disabled {
      LendOwnComesBack(s, pid, c);
      hide LendCpu;
    }
    hide OneCpuCores, NoPetition, ShutCpu, Orphaned, ComesBack;
  }

  lemma LeaveKeepsNoPetition(s: State, pid: Pid, public: bool, c: nat)
    requires Has(s, c) && NoPetition(s, pid)
    ensures NoPetition(LeaveCpu(s, pid, public, c), pid)
  {
    LendStays(s, pid, c, c);
    if s.cpus[c].owner == pid {
      ShutAlone(s, pid, c);
      OrphanedAlone(LendCpu(s, pid, c), c);
    }
    hide LendCpu, ShutCpu, Orphaned;
  }

  lemma {:induction false} LeaveFromOwn(s: State, pid: Pid, public: bool, c: nat, d: nat)
    requires OneCpuCores(s) && c <= d < |s.cpus| && s.queues && NoPetition(s, pid) && s.cpus[d].owner == pid
    ensures LeaveFrom(s, pid, public, c).cpus[d].guest == pid <==> Recovered(s.cpus[d], pid, public)
    decreases |s.cpus| - c
  {
    LeaveCpuAlone(s, pid, public, c);
    LeaveKeepsNoPetition(s, pid, public, c);
    var t := LeaveCpu(s, pid, public, c);
    if c < d {
      hide LeaveCpu, NoPetition, Recovered;
      LeaveFromOwn(t, pid, public, c + 1, d);
    } else {
      LeaveOwn(s, pid, public, c);
      hide LeaveCpu, NoPetition, Recovered;
      LeaveFromUnchanged(t, pid, public, c + 1, d);
    }
  }

  lemma {:induction false} LeaveFromUnchanged(s: State, pid: Pid, public: bool, c: nat, d: nat)
    requires OneCpuCores(s) && d < |s.cpus| && d < c
    ensures LeaveFrom(s, pid, public, c).cpus[d] == s.cpus[d]
    decreases |s.cpus| - c
  {
    if c < |s.cpus| {
      LeaveCpuAlone(s, pid, public, c);
      hide LeaveCpu;
      LeaveFromUnchanged(LeaveCpu(s, pid, public, c), pid, public, c + 1, d);
    }
  }

  /** With requests of pid on its own CPUs, on one-CPU cores: pid leaves such a CPU unless the CPU is left
      public and its first request is of pid (or it is disabled). */
  lemma DeregisterOwnRequest(s: State, pid: Pid, public: bool, d: nat)
    requires OneCpuCores(s) && d < |s.cpus| && s.queues && s.cpus[d].owner == pid
    ensures Deregister(s, pid, public).cpus[d].guest == pid <==> Recovered(s.cpus[d], pid, public)
  {
    WithdrawnAt(s, pid, d);
    hide LeaveFrom, Withdrawn, Without;
    LeaveFromOwn(Withdrawn(s, pid), pid, public, 0, d);
  }

  // ---------------------------------------------------------------- update_max_parallelism

  predicate Borrows(cpu: Cpu, pid: Pid) {
    cpu.owner != pid && cpu.guest == pid
  }

  /** The number of CPUs below c that pid owns. */
  function OwnedBelow(s: State, pid: Pid, c: nat): nat
    requires c <= |s.cpus|
  {
    if c == 0 then 0 else OwnedBelow(s, pid, c - 1) + if s.cpus[c - 1].owner == pid then 1 else 0
  }

  /** The CPUs below c that pid uses and does not own, in order. */
  function BorrowedBelow(s: State, pid: Pid, c: nat): (r: seq<nat>)
    requires c <= |s.cpus|
    ensures forall k :: 0 <= k < |r| ==> r[k] < c && Borrows(s.cpus[r[k]], pid)
  {
    if c == 0 then [] else BorrowedBelow(s, pid, c - 1) + if Borrows(s.cpus[c - 1], pid) then [c - 1] else []
  }

  /** The place of CPU d among those of pid: its own CPUs first, then those that it borrows, each by number. */
  function Rank(s: State, pid: Pid, d: nat): nat
    requires d < |s.cpus|
  {
    if s.cpus[d].owner == pid then OwnedBelow(s, pid, d) else OwnedBelow(s, pid, |s.cpus|) + |BorrowedBelow(s, pid, d)|
  }

  /** CPU d was lent if it had to be; otherwise it stays. */
  ghost predicate Bounded(s: State, t: State, pid: Pid, d: nat, lent: bool)
    requires d < |s.cpus| && SameTopology(s, t)
  {
    var a, b := s.cpus[d], t.cpus[d];
    if lent && a.state != CpuState.Disabled
    then b.owner == a.owner && b.guest != pid && b.state == (if a.owner == pid then Lent else a.state)
    else Stays(s, t, pid, d)
  }

  lemma DisableLentBounds(s: State, pid: Pid, c: nat, d: nat)
    requires Has(s, c) && d < |s.cpus| && Unasked(s, pid)
    ensures AsksLess(s, DisableLent(s, pid, c), pid) && Bounded(s, DisableLent(s, pid, c), pid, d, d == c)
  {
    LendStays(s, pid, c, d);
    if d == c {
      LendLetsGo(s, pid, c);
    }
    hide LendCpu, OneCpuCores, NoPetition;
  }

  lemma DisableLentUnasked(s: State, pid: Pid, c: nat)
    requires Has(s, c) && Unasked(s, pid)
    ensures Unasked(DisableLent(s, pid, c), pid)
  {
    var t := DisableLent(s, pid, c);
    DisableLentBounds(s, pid, c, c);
    AskedLess(s, t, pid);
    forall d | 0 <= d < |s.cpus| ensures Calm(t, pid, d) {
      DisableLentBounds(s, pid, c, d);
      hide DisableLent, OneCpuCores, NoPetition, AsksLess;
      CalmOn(s, t, pid, d);
    }
  }

  lemma AskedLess(s: State, t: State, pid: Pid)
    requires AsksLess(s, t, pid) && NoPetition(s, pid)
    ensures NoPetition(t, pid)
  {
  }

  lemma BoundedOn(s: State, t: State, u: State, pid: Pid, d: nat, now: bool, later: bool)
    requires d < |s.cpus| && SameTopology(s, t) && SameTopology(t, u)
    requires Bounded(s, t, pid, d, now) && Bounded(t, u, pid, d, later)
    ensures Bounded(s, u, pid, d, now || later)
  {
    hide OneCpuCores;
    assert OneCpuCores(t) <==> OneCpuCores(s) by { SameCores(s, t); }
  }

  lemma SameCores(s: State, t: State)
    requires SameTopology(s, t)
    ensures OneCpuCores(t) <==> OneCpuCores(s)
  {
  }

  /** s and t agree on which CPUs pid owns and on which it borrows. */
  ghost predicate SameHoldings(s: State, t: State, pid: Pid, from: nat) {
    && |t.cpus| == |s.cpus| && (forall d :: 0 <= d < |s.cpus| ==> t.cpus[d].owner == s.cpus[d].owner)
    && forall d :: from <= d < |s.cpus| ==> (Borrows(t.cpus[d], pid) <==> Borrows(s.cpus[d], pid))
  }

  lemma {:induction false} SameOwned(s: State, t: State, pid: Pid, c: nat)
    requires c <= |s.cpus| && SameHoldings(s, t, pid, 0)
    ensures OwnedBelow(t, pid, c) == OwnedBelow(s, pid, c) && BorrowedBelow(t, pid, c) == BorrowedBelow(s, pid, c)
  {
    if c > 0 {
      SameOwned(s, t, pid, c - 1);
    }
  }

  lemma LendOwnHoldings(s: State, pid: Pid, c: nat)
    requires Has(s, c) && Unasked(s, pid) && s.cpus[c].owner == pid
    ensures SameHoldings(s, DisableLent(s, pid, c), pid, 0)
  {
    var t := DisableLent(s, pid, c);
    forall d | 0 <= d < |s.cpus|
      ensures t.cpus[d].owner == s.cpus[d].owner && (Borrows(t.cpus[d], pid) <==> Borrows(s.cpus[d], pid))
    {
      DisableLentBounds(s, pid, c, d);
      hide DisableLent, Unasked, OneCpuCores;
    }
  }

  lemma LendOwnStep(s: State, pid: Pid, c: nat, d: nat)
    requires Has(s, c) && d < |s.cpus| && Unasked(s, pid) && s.cpus[c].owner == pid
    ensures var t := DisableLent(s, pid, c);
      && Unasked(t, pid) && Bounded(s, t, pid, d, d == c) && t.cpus[d].owner == s.cpus[d].owner
      && (forall e :: 0 <= e <= |s.cpus| ==>
            OwnedBelow(t, pid, e) == OwnedBelow(s, pid, e) && BorrowedBelow(t, pid, e) == BorrowedBelow(s, pid, e))
  {
    LendOwnHoldings(s, pid, c);
    DisableLentUnasked(s, pid, c);
    DisableLentBounds(s, pid, c, d);
    var t := DisableLent(s, pid, c);
    hide DisableLent, Unasked, OneCpuCores, OwnedBelow, BorrowedBelow;
    forall e | 0 <= e <= |s.cpus|
      ensures OwnedBelow(t, pid, e) == OwnedBelow(s, pid, e) && BorrowedBelow(t, pid, e) == BorrowedBelow(s, pid, e)
    {
      SameOwned(s, t, pid, e);
    }
  }

  lemma CountedOn(s: State, pid: Pid, c: nat)
    requires c < |s.cpus|
    ensures OwnedBelow(s, pid, c + 1) == OwnedBelow(s, pid, c) + if s.cpus[c].owner == pid then 1 else 0
    ensures BorrowedBelow(s, pid, c + 1) == if Borrows(s.cpus[c], pid) then BorrowedBelow(s, pid, c) + [c] else BorrowedBelow(s, pid, c)
  {
  }

  /** The first pass from CPU c on, with what it has counted so far. */
  function PassFrom(s: State, pid: Pid, max: nat, c: nat): (r: Owned)
    requires |s.core| == |s.cpus| && c <= |s.cpus|
    ensures SameTopology(s, r.state)
  {
    LendOwned(s, pid, max, c, OwnedBelow(s, pid, c), BorrowedBelow(s, pid, c))
  }

  lemma PassOne(s: State, pid: Pid, max: nat, c: nat)
    requires |s.core| == |s.cpus| && c < |s.cpus| && Unasked(s, pid)
    ensures PassFrom(s, pid, max, c) ==
      PassFrom(if s.cpus[c].owner == pid && max <= OwnedBelow(s, pid, c) then DisableLent(s, pid, c) else s, pid, max, c + 1)
  {
    CountedOn(s, pid, c);
    if s.cpus[c].owner == pid && max <= OwnedBelow(s, pid, c) {
      LendOwnStep(s, pid, c, c);
    }
    hide Unasked, DisableLent, Bounded, OwnedBelow, BorrowedBelow;
  }

  /** The first pass lends the owned CPUs of rank max and beyond, and lists all the borrowed ones. */
  lemma {:induction false} FirstPass(s: State, pid: Pid, max: nat, c: nat, d: nat)
    requires |s.core| == |s.cpus| && c <= |s.cpus| && d < |s.cpus| && Unasked(s, pid)
    ensures var r := PassFrom(s, pid, max, c);
      && r.owned == OwnedBelow(s, pid, |s.cpus|) && r.guested == BorrowedBelow(s, pid, |s.cpus|) && Unasked(r.state, pid)
      && Bounded(s, r.state, pid, d, c <= d && s.cpus[d].owner == pid && OwnedBelow(s, pid, d) >= max)
    decreases |s.cpus| - c
  {
    if c < |s.cpus| {
      hide Unasked, DisableLent, Bounded, OwnedBelow, BorrowedBelow, PassFrom;
      PassOne(s, pid, max, c);
      if s.cpus[c].owner == pid && max <= OwnedBelow(s, pid, c) {
        LendOwnStep(s, pid, c, d);
        var t := DisableLent(s, pid, c);
        FirstPass(t, pid, max, c + 1, d);
        BoundedOn(s, t, PassFrom(t, pid, max, c + 1).state, pid, d, d == c,
          c + 1 <= d && t.cpus[d].owner == pid && OwnedBelow(t, pid, d) >= max);
      } else {
        FirstPass(s, pid, max, c + 1, d);
      }
    }
  }

  /** CPU d is in the list, from position i on, at a rank that has to be lent. */
  ghost predicate Beyond(list: seq<nat>, i: nat, owned: nat, max: nat, d: nat) {
    exists k :: i <= k < |list| && list[k] == d && owned + k >= max
  }

  /** The second pass lends the borrowed CPUs of rank max and beyond. */
  lemma {:induction false} SecondPass(s: State, pid: Pid, max: nat, owned: nat, list: seq<nat>, i: nat, d: nat)
    requires |s.core| == |s.cpus| && d < |s.cpus| && Unasked(s, pid) && InTable(s, list)
    ensures Bounded(s, LendGuested(s, pid, max, owned, list, i), pid, d, Beyond(list, i, owned, max, d))
    decreases |list| - i
  {
    if i < |list| {
      var lend := max < owned + i + 1;
      var t := if lend then DisableLent(s, pid, list[i]) else s;
      if lend {
        DisableLentUnasked(s, pid, list[i]);
        DisableLentBounds(s, pid, list[i], d);
      }
      SecondPass(t, pid, max, owned, list, i + 1, d);
      var u := LendGuested(t, pid, max, owned, list, i + 1);
      assert u == LendGuested(s, pid, max, owned, list, i);
      assert Beyond(list, i, owned, max, d) <==> (lend && d == list[i]) || Beyond(list, i + 1, owned, max, d);
      hide Unasked, DisableLent, Beyond, LendGuested, OneCpuCores;
      BoundedOn(s, t, u, pid, d, lend && d == list[i], Beyond(list, i + 1, owned, max, d));
    }
  }

  lemma {:induction false} BorrowedAt(s: State, pid: Pid, c: nat, d: nat, k: nat)
    requires d < c <= |s.cpus|
    ensures k < |BorrowedBelow(s, pid, c)| && BorrowedBelow(s, pid, c)[k] == d <==>
      Borrows(s.cpus[d], pid) && k == |BorrowedBelow(s, pid, d)|
    decreases c
  {
    BorrowedGrows(s, pid, c - 1, d);
    if d < c - 1 {
      BorrowedAt(s, pid, c - 1, d, k);
    }
  }

  lemma {:induction false} BorrowedGrows(s: State, pid: Pid, c: nat, d: nat)
    requires d <= c <= |s.cpus|
    ensures |BorrowedBelow(s, pid, d)| <= |BorrowedBelow(s, pid, c)|
  {
    if d < c {
      BorrowedGrows(s, pid, c - 1, d);
    }
  }

  /** pid owns or uses CPU d, and has max others before it. */
  predicate Excess(s: State, pid: Pid, max: nat, d: nat)
    requires d < |s.cpus|
  {
    (s.cpus[d].owner == pid || s.cpus[d].guest == pid) && Rank(s, pid, d) >= max
  }

  lemma UpdateMaxBounds(s: State, pid: Pid, max: nat, d: nat)
    requires |s.core| == |s.cpus| && d < |s.cpus| && Unasked(s, pid)
    ensures Bounded(s, UpdateMax(s, pid, max), pid, d, Excess(s, pid, max, d))
  {
    var r := PassFrom(s, pid, max, 0);
    assert r == LendOwned(s, pid, max, 0, 0, []);
    FirstPass(s, pid, max, 0, d);
    var list, k := r.guested, |BorrowedBelow(s, pid, d)|;
    BorrowedAt(s, pid, |s.cpus|, d, k);
    forall j | 0 <= j < |list| && list[j] == d ensures j == k {
      BorrowedAt(s, pid, |s.cpus|, d, j);
    }
    assert Beyond(list, 0, r.owned, max, d) <==> Borrows(s.cpus[d], pid) && Rank(s, pid, d) >= max;
    SecondPass(r.state, pid, max, r.owned, list, 0, d);
    hide LendOwned, LendGuested, Unasked, OneCpuCores, Bounded, Beyond, BorrowedBelow, OwnedBelow;
    BoundedOn(s, r.state, UpdateMax(s, pid, max), pid, d, s.cpus[d].owner == pid && OwnedBelow(s, pid, d) >= max,
      Beyond(list, 0, r.owned, max, d));
  }

  /** The CPUs that pid uses after update_max_parallelism are exactly those that it used and that were among its
      first max, owned ones first, or disabled; the other CPUs that it owns are lent. */
  lemma UpdateMaxExact(s: State, pid: Pid, max: nat, d: nat)
    requires |s.core| == |s.cpus| && d < |s.cpus| && Unasked(s, pid)
    ensures var a, b := s.cpus[d], UpdateMax(s, pid, max).cpus[d];
      && b.owner == a.owner
      && b.state == (if a.owner == pid && Rank(s, pid, d) >= max && a.state != CpuState.Disabled then Lent else a.state)
      && (if Wakes(s, pid, d) then b.guest == pid ==> Rank(s, pid, d) < max
          else b.guest == pid <==> a.guest == pid && (a.state == CpuState.Disabled || Rank(s, pid, d) < max))
  {
    UpdateMaxBounds(s, pid, max, d);
    hide UpdateMax, Rank, Unasked, OneCpuCores;
  }

  // ---------------------------------------------------------------- the bound

  function FirstOwned(s: State, pid: Pid, max: nat, c: nat): set<nat>
    requires c <= |s.cpus|
  {
    set d | 0 <= d < c && s.cpus[d].owner == pid && OwnedBelow(s, pid, d) < max
  }

  function FirstBorrowed(s: State, pid: Pid, room: nat, c: nat): set<nat>
    requires c <= |s.cpus|
  {
    set d | 0 <= d < c && Borrows(s.cpus[d], pid) && |BorrowedBelow(s, pid, d)| < room
  }

  lemma {:induction false} FirstOwnedSize(s: State, pid: Pid, max: nat, c: nat)
    requires c <= |s.cpus|
    ensures |FirstOwned(s, pid, max, c)| == Min(max, OwnedBelow(s, pid, c))
  {
    if c == 0 {
      assert FirstOwned(s, pid, max, c) == {};
    } else {
      FirstOwnedSize(s, pid, max, c - 1);
      var last := if s.cpus[c - 1].owner == pid && OwnedBelow(s, pid, c - 1) < max then {c - 1} else {};
      assert FirstOwned(s, pid, max, c) == FirstOwned(s, pid, max, c - 1) + last;
    }
  }

  lemma {:induction false} FirstBorrowedSize(s: State, pid: Pid, room: nat, c: nat)
    requires c <= |s.cpus|
    ensures |FirstBorrowed(s, pid, room, c)| == Min(room, |BorrowedBelow(s, pid, c)|)
  {
    if c == 0 {
      assert FirstBorrowed(s, pid, room, c) == {};
    } else {
      FirstBorrowedSize(s, pid, room, c - 1);
      var last := if Borrows(s.cpus[c - 1], pid) && |BorrowedBelow(s, pid, c - 1)| < room then {c - 1} else {};
      assert FirstBorrowed(s, pid, room, c) == FirstBorrowed(s, pid, room, c - 1) + last;
    }
  }

  /** The enabled CPUs that pid uses. */
  function InUse(s: State, pid: Pid): set<nat> {
    set d | 0 <= d < |s.cpus| && s.cpus[d].guest == pid && s.cpus[d].state != CpuState.Disabled
  }

  /** After update_max_parallelism pid uses at most max enabled CPUs. */
  lemma MaxParallelismHolds(s: State, pid: Pid, max: nat)
    requires |s.core| == |s.cpus| && Unasked(s, pid)
    ensures |InUse(UpdateMax(s, pid, max), pid)| <= max
  {
    var t, owned := UpdateMax(s, pid, max), OwnedBelow(s, pid, |s.cpus|);
    var room: nat := Max(max - owned, 0);
    var first, others := FirstOwned(s, pid, max, |s.cpus|), FirstBorrowed(s, pid, room, |s.cpus|);
    FirstOwnedSize(s, pid, max, |s.cpus|);
    FirstBorrowedSize(s, pid, room, |s.cpus|);
    forall d | d in InUse(t, pid) ensures d in first + others {
      UpdateMaxExact(s, pid, max, d);
      hide UpdateMax, Unasked, OwnedBelow, BorrowedBelow;
    }
    assert first !! others;
    assert |first + others| == |first| + |others|;
    SmallerSubset(InUse(t, pid), first + others);
  }

  /** So the limit holds, in every state and mode, after the requests have been removed. */
  lemma LimitAfterRemoving(s: State, pid: Pid, max: nat)
    requires |s.core| == |s.cpus|
    ensures |InUse(UpdateMax(RemoveRequests(s, pid), pid, max), pid)| <= max
  {
    RemovedIsUnasked(s, pid);
    hide RemoveRequests, UpdateMax, Unasked;
    MaxParallelismHolds(RemoveRequests(s, pid), pid, max);
  }
}
