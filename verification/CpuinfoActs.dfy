/** The CPU table as a state machine over the operations on one CPU, and the agreement of free_cpus
    with it (src/LB_comm/shmem_cpuinfo.c). Every locked operation is a sequence of these acts. */
module CpuinfoActs {
  import opened Codes
  import opened CpuinfoSpec

  /** Notify is a task added by itself; Requeue and Repost stand for every edit of the request queues. */
  datatype Act =
    | Lend(c: nat) | Reclaim(c: nat) | Acquire(c: nat) | Borrow(c: nat)
    | Return(c: nat) | ReturnAsync(c: nat)
    | Register(c: nat, pre: nat) | Leave(c: nat, public: bool) | Forget(c: nat, public: bool)
    | Own(c: nat, mine: bool) | Check(c: nat)
    | Notify(c: nat, action: Action, who: nat) | Requeue(c: nat, requests: seq<Pid>) | Repost(petitions: seq<Petition>)

  function Do(s: State, pid: Pid, act: Act): (t: State)
    requires |s.core| == |s.cpus|
    ensures SameTopology(s, t)
  {
    if act.Repost? then s.(petitions := act.petitions)
    else if act.c >= |s.cpus| then s
    else
      match act
      case Lend(c) => LendCpu(s, pid, c)
      case Reclaim(c) => ReclaimCpu(s, pid, c).0
      case Acquire(c) => AcquireCpu(s, pid, c).0
      case Borrow(c) => BorrowCpu(s, pid, c).0
      case Return(c) => ReturnCpu(s, pid, c).0
      case ReturnAsync(c) => CpuinfoSpec.ReturnAsync(s, pid, c)
      case Register(c, pre) => RegisterCpu(s, pid, pre, c)
      case Leave(c, public) => LeaveCpu(s, pid, public, c)
      case Forget(c, public) => ForgetCpu(s, pid, public, c)
      case Own(c, mine) => OwnCpu(s, pid, mine, c)
      case Check(c) => CheckCpu(s, pid, c).0
      case Notify(c, action, who) => Push(s, action, who, c)
      case Requeue(c, requests) => Put(s, c, s.cpus[c].(requests := requests))
      case Repost(_) => s
  }

  datatype Step = Step(pid: Pid, act: Act)

  function Run(s: State, steps: seq<Step>): (t: State)
    requires |s.core| == |s.cpus|
    ensures SameTopology(s, t)
    decreases |steps|
  {
    if steps == [] then s else Run(Do(s, steps[0].pid, steps[0].act), steps[1..])
  }

  // ---------------------------------------------------------------- the search for a guest

  /** Same owners, guests, states and index sets: only queues and tasks may differ. */
  ghost predicate SameHosts(s: State, t: State) {
    && SameTopology(s, t) && t.free == s.free && t.occupied == s.occupied
    && forall d :: 0 <= d < |s.cpus| ==>
      t.cpus[d].owner == s.cpus[d].owner && t.cpus[d].guest == s.cpus[d].guest && t.cpus[d].state == s.cpus[d].state
  }

  /** A CPU only gets its owner, when reclaimed, or a process for which its core is eligible. */
  lemma FoundGuest(s: State, c: nat)
    requires Has(s, c)
    ensures var (guest, t) := FindNewGuest(s, c);
      && SameHosts(s, t)
      && (s.cpus[c].state == Busy ==> guest == s.cpus[c].owner)
      && (s.cpus[c].state != Busy && guest != NOBODY ==> s.queues && CoreIsEligible(s, guest, c))
  {
    hide CoreIsEligible;
  }

  /** What giving a CPU without guest to somebody changes: its guest, and nothing else that counts. */
  ghost predicate Rehosts(s: State, t: State, c: nat, guest: nat)
    requires Has(s, c)
  {
    && SameTopology(s, t) && t.free == s.free && t.occupied == s.occupied
    && (forall d :: 0 <= d < |s.cpus| && d != c ==> SameRole(s.cpus[d], t.cpus[d]))
    && t.cpus[c].owner == s.cpus[c].owner && t.cpus[c].state == s.cpus[c].state && t.cpus[c].guest == guest
  }

  ghost predicate SameRole(a: Cpu, b: Cpu) {
    b.owner == a.owner && b.guest == a.guest && b.state == a.state
  }

  lemma RefillEffect(s: State, c: nat) returns (guest: nat)
    requires Has(s, c) && s.cpus[c].guest == NOBODY
    ensures Rehosts(s, Refill(s, c), c, guest)
    ensures s.cpus[c].state == Busy ==> guest == s.cpus[c].owner
    ensures s.cpus[c].state != Busy && guest != NOBODY ==> s.queues && CoreIsEligible(s, guest, c)
  {
    FoundGuest(s, c);
    hide FindNewGuest, CoreIsEligible;
    guest := FindNewGuest(s, c).0;
  }

  // ---------------------------------------------------------------- free_cpus

  /** An enabled CPU without guest is in free_cpus, and a busy CPU has an owner. */
  ghost predicate Listed(cpu: Cpu, free: bool) {
    (cpu.state != Disabled && cpu.guest == NOBODY ==> free) && (cpu.state == Busy ==> cpu.owner != NOBODY)
  }

  ghost predicate IdleAreFree(s: State) {
    |s.core| == |s.cpus| && forall c :: 0 <= c < |s.cpus| ==> Listed(s.cpus[c], c in s.free)
  }

  lemma FillOneFree(s: State, c: nat, d: nat)
    requires Has(s, c) && d < |s.cpus| && IdleAreFree(s)
    ensures IdleAreFree(FillOne(s, c, d))
  {
    if d != c && SameCore(s.core, c, d) && s.cpus[d].guest == NOBODY {
      var guest := RefillEffect(s, d);
      hide Refill, CoreIsEligible;
    }
  }

  lemma {:induction false} FillCoreFree(s: State, c: nat, d: nat)
    requires Has(s, c) && IdleAreFree(s)
    ensures IdleAreFree(FillCore(s, c, d))
    decreases |s.cpus| - d
  {
    hide FillOne, IdleAreFree;
    if d < |s.cpus| {
      FillOneFree(s, c, d);
      FillCoreFree(FillOne(s, c, d), c, d + 1);
    }
  }

  lemma RehostFree(s: State, c: nat)
    requires Has(s, c) && (forall d :: 0 <= d < |s.cpus| && d != c ==> Listed(s.cpus[d], d in s.free))
    requires s.cpus[c].state == Busy ==> s.cpus[c].owner != NOBODY
    ensures IdleAreFree(Rehost(s, c))
  {
    if s.cpus[c].guest == NOBODY {
      var guest := RefillEffect(s, c);
      var t := Refill(s, c);
      hide Refill, CoreIsEligible, FillCore;
      if guest != NOBODY {
        assert IdleAreFree(t);
        FillCoreFree(t, c, 0);
      }
    }
  }

  lemma OccupiedFree(s: State, occupied: set<nat>)
    requires IdleAreFree(s)
    ensures IdleAreFree(s.(occupied := occupied))
  {
  }

  lemma LendFree(s: State, pid: Pid, c: nat)
    requires IdleAreFree(s) && Has(s, c)
    ensures IdleAreFree(LendCpu(s, pid, c))
  {
    if s.cpus[c].state != Disabled {
      var s1 := Put(s, c, LetGo(s.cpus[c], pid, s.queues));
      hide Without, Rehost, UpdatedOccupied;
      RehostFree(s1, c);
      var t := Rehost(s1, c);
      OccupiedFree(t, UpdatedOccupied(t, t.cpus[c].owner, c));
    }
  }

  lemma OrphanedFree(s: State, c: nat)
    requires IdleAreFree(s) && Has(s, c) && s.cpus[c].state != Busy
    ensures IdleAreFree(Orphaned(s, c))
  {
  }

  lemma ShutFree(s: State, pid: Pid, c: nat)
    requires IdleAreFree(s) && Has(s, c)
    ensures IdleAreFree(ShutCpu(s, pid, c)) && ShutCpu(s, pid, c).cpus[c].state == Disabled
  {
    TakeFree(s, pid, c);
    hide ReclaimCpu;
  }

  lemma LeaveFree(s: State, pid: Pid, public: bool, c: nat)
    requires IdleAreFree(s) && Has(s, c)
    ensures IdleAreFree(LeaveCpu(s, pid, public, c))
  {
    LendFree(s, pid, c);
    ShutFree(s, pid, c);
    hide LendCpu, ShutCpu, Orphaned;
    if s.cpus[c].owner == pid {
      if public {
        LentState(s, pid, c);
      }
      OrphanedFree(if public then LendCpu(s, pid, c) else ShutCpu(s, pid, c), c);
    }
  }

  /** Lending an owned CPU leaves it not busy. */
  lemma LentState(s: State, pid: Pid, c: nat)
    requires Has(s, c) && s.cpus[c].owner == pid
    ensures LendCpu(s, pid, c).cpus[c].state != Busy
  {
    if s.cpus[c].state != Disabled {
      var s1 := Put(s, c, LetGo(s.cpus[c], pid, s.queues));
      RehostRole(s1, c, c);
      hide Rehost, Without;
    }
  }

  /** Filling changes no owner and no state, and only the guests of idle CPUs of the core. */
  ghost predicate Fills(s: State, t: State, c: nat, e: nat)
    requires Has(s, c) && e < |s.cpus| && SameTopology(s, t)
  {
    && t.cpus[e].owner == s.cpus[e].owner && t.cpus[e].state == s.cpus[e].state && t.occupied == s.occupied
    && (e == c || s.cpus[e].guest != NOBODY || !SameCore(s.core, c, e) ==> t.cpus[e].guest == s.cpus[e].guest)
  }

  lemma FillOneRole(s: State, c: nat, d: nat, e: nat)
    requires Has(s, c) && d < |s.cpus| && e < |s.cpus|
    ensures Fills(s, FillOne(s, c, d), c, e)
  {
    if d != c && SameCore(s.core, c, d) && s.cpus[d].guest == NOBODY {
      var guest := RefillEffect(s, d);
      hide Refill, CoreIsEligible;
    }
  }

  lemma {:induction false} FillCoreRole(s: State, c: nat, d: nat, e: nat)
    requires Has(s, c) && e < |s.cpus|
    ensures Fills(s, FillCore(s, c, d), c, e)
    decreases |s.cpus| - d
  {
    hide FillOne;
    if d < |s.cpus| {
      FillOneRole(s, c, d, e);
      FillCoreRole(FillOne(s, c, d), c, d + 1, e);
    }
  }

  /** Rehosting changes no owner and no state, and only the guests of idle CPUs of the same core. */
  lemma RehostRole(s: State, c: nat, e: nat)
    requires Has(s, c) && e < |s.cpus|
    ensures var t := Rehost(s, c);
      && t.cpus[e].owner == s.cpus[e].owner && t.cpus[e].state == s.cpus[e].state && t.occupied == s.occupied
      && (s.cpus[e].guest != NOBODY || !SameCore(s.core, c, e) ==> t.cpus[e].guest == s.cpus[e].guest)
  {
    if s.cpus[c].guest == NOBODY {
      var guest := RefillEffect(s, c);
      hide Refill, CoreIsEligible, FillCore;
      FillCoreRole(Refill(s, c), c, 0, e);
    }
  }

  lemma HostedFree(s: State, pid: Pid, c: nat)
    requires IdleAreFree(s) && Has(s, c)
    ensures IdleAreFree(Hosted(s, pid, c))
  {
    hide UpdatedOccupied;
  }

  lemma VacatedFree(s: State, c: nat)
    requires IdleAreFree(s) && Has(s, c)
    ensures IdleAreFree(Vacated(s, c))
  {
    hide UpdatedOccupied;
  }

  lemma TakeFree(s: State, pid: Pid, c: nat)
    requires IdleAreFree(s) && Has(s, c)
    ensures IdleAreFree(ReclaimCpu(s, pid, c).0)
    ensures IdleAreFree(AcquireCpu(s, pid, c).0)
    ensures IdleAreFree(BorrowCpu(s, pid, c).0)
  {
    HostedFree(s, pid, c);
    hide UpdatedOccupied, Hosted, CoreIsEligible;
  }

  lemma GiveFree(s: State, pid: Pid, c: nat)
    requires IdleAreFree(s) && Has(s, c)
    ensures IdleAreFree(ReturnCpu(s, pid, c).0)
    ensures IdleAreFree(CpuinfoSpec.ReturnAsync(s, pid, c))
  {
    VacatedFree(s, c);
    hide Vacated, Keeps;
    var t := Vacated(s, c);
  }

  lemma ForgetFree(s: State, pid: Pid, public: bool, c: nat)
    requires IdleAreFree(s) && Has(s, c)
    ensures IdleAreFree(ForgetCpu(s, pid, public, c))
  {
    hide Without;
  }

  lemma OwnFree(s: State, pid: Pid, mine: bool, c: nat)
    requires IdleAreFree(s) && Has(s, c)
    ensures IdleAreFree(OwnCpu(s, pid, mine, c))
  {
    GiveFree(s, pid, c);
    hide ReturnCpu;
  }

  lemma RegisterFree(s: State, pid: Pid, pre: nat, c: nat)
    requires IdleAreFree(s) && Has(s, c)
    ensures IdleAreFree(RegisterCpu(s, pid, pre, c))
    ensures IdleAreFree(CheckCpu(s, pid, c).0)
  {
    hide UpdatedOccupied;
  }

  /** Every operation on a CPU, by any process and in any mode, keeps free_cpus complete. */
  lemma ActKeepsFree(s: State, pid: Pid, act: Act)
    requires IdleAreFree(s)
    ensures IdleAreFree(Do(s, pid, act))
  {
    hide LendCpu, ReclaimCpu, AcquireCpu, BorrowCpu, ReturnCpu, CpuinfoSpec.ReturnAsync, RegisterCpu, LeaveCpu,
      ForgetCpu, OwnCpu, CheckCpu;
    if act.Repost? || act.c >= |s.cpus| || act.Requeue? || act.Notify? {
    } else {
      hide IdleAreFree;
      HasCpu(s, act.c);
      match act
      case Lend(c) => LendFree(s, pid, c);
      case Reclaim(c) => TakeFree(s, pid, c);
      case Acquire(c) => TakeFree(s, pid, c);
      case Borrow(c) => TakeFree(s, pid, c);
      case Return(c) => GiveFree(s, pid, c);
      case ReturnAsync(c) => GiveFree(s, pid, c);
      case Register(c, pre) => RegisterFree(s, pid, pre, c);
      case Leave(c, public) => LeaveFree(s, pid, public, c);
      case Forget(c, public) => ForgetFree(s, pid, public, c);
      case Own(c, mine) => OwnFree(s, pid, mine, c);
      case Check(c) => RegisterFree(s, pid, NOBODY, c);
    }
  }

  lemma HasCpu(s: State, c: nat)
    requires IdleAreFree(s) && c < |s.cpus|
    ensures Has(s, c)
  {
  }

  lemma {:induction false} RunKeepsFree(s: State, steps: seq<Step>)
    requires IdleAreFree(s)
    ensures IdleAreFree(Run(s, steps))
    decreases |steps|
  {
    if steps != [] {
      ActKeepsFree(s, steps[0].pid, steps[0].act);
      hide Do;
      RunKeepsFree(Do(s, steps[0].pid, steps[0].act), steps[1..]);
    }
  }
}
