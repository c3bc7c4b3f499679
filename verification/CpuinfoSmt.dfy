/** With SMT, whole cores change hands: at most one process other than the owner uses a core, and
    occupied_cores never misses a CPU used by another than its owner (src/LB_comm/shmem_cpuinfo.c). */
module CpuinfoSmt {
  import opened Codes
  import opened CpuinfoSpec
  import opened CpuinfoActs
  import opened CpuinfoOps

  ghost predicate OneOwner(s: State) {
    |s.core| == |s.cpus| &&
    forall c, d :: 0 <= c < |s.cpus| && 0 <= d < |s.cpus| && SameCore(s.core, c, d) ==> s.cpus[c].owner == s.cpus[d].owner
  }

  predicate Visited(cpu: Cpu) {
    cpu.guest != NOBODY && cpu.guest != cpu.owner
  }

  /** The CPUs of a core that are used by another than the owner are all used by the same process. */
  ghost predicate OneVisitor(s: State) {
    |s.core| == |s.cpus| &&
    forall c, d :: 0 <= c < |s.cpus| && 0 <= d < |s.cpus| && SameCore(s.core, c, d) && Visited(s.cpus[c]) && Visited(s.cpus[d])
      ==> s.cpus[c].guest == s.cpus[d].guest
  }

  ghost predicate OwnersEnabled(s: State) {
    forall c :: 0 <= c < |s.cpus| && s.cpus[c].state == Disabled ==> s.cpus[c].owner == NOBODY
  }

  ghost predicate Exclusive(s: State) {
    s.smt && OneOwner(s) && OneVisitor(s) && OwnersEnabled(s)
  }

  /** The rest of the core is idle or used by g. */
  ghost predicate CoreOnlyFor(s: State, c: nat, g: nat)
    requires Has(s, c)
  {
    forall d :: 0 <= d < |s.cpus| && SameCore(s.core, c, d) ==> s.cpus[d].guest == NOBODY || s.cpus[d].guest == g
  }

  /** Only CPU c changes, keeping its owner, and its guest is one that cannot clash. */
  ghost predicate Hosts(s: State, t: State, c: nat)
    requires Has(s, c)
  {
    && SameTopology(s, t)
    && (forall d :: 0 <= d < |s.cpus| && d != c ==> SameRole(s.cpus[d], t.cpus[d]))
    && t.cpus[c].owner == s.cpus[c].owner
    && (t.cpus[c].state == Disabled ==> s.cpus[c].state == Disabled)
    && (t.cpus[c].guest in {NOBODY, s.cpus[c].owner, s.cpus[c].guest} || CoreOnlyFor(s, c, t.cpus[c].guest))
  }

  lemma HostsExclusive(s: State, t: State, c: nat)
    requires Exclusive(s) && Has(s, c) && Hosts(s, t, c)
    ensures Exclusive(t)
  {
    forall e, d | 0 <= e < |t.cpus| && 0 <= d < |t.cpus| && SameCore(t.core, e, d)
      ensures t.cpus[e].owner == t.cpus[d].owner
      ensures Visited(t.cpus[e]) && Visited(t.cpus[d]) ==> t.cpus[e].guest == t.cpus[d].guest
    {
      assert SameCore(s.core, c, e) == SameCore(s.core, c, d);
    }
  }

  lemma EligibleCore(s: State, pid: Pid, c: nat)
    requires Has(s, c) && s.smt && CoreIsEligible(s, pid, c)
    ensures CoreOnlyFor(s, c, pid)
  {
  }

  // ---------------------------------------------------------------- acts

  lemma FillOneExclusive(s: State, c: nat, d: nat)
    requires Exclusive(s) && Has(s, c) && d < |s.cpus|
    ensures Exclusive(FillOne(s, c, d))
  {
    if d != c && SameCore(s.core, c, d) && s.cpus[d].guest == NOBODY {
      var guest := RefillEffect(s, d);
      hide Refill, Exclusive;
      if guest != NOBODY && s.cpus[d].state != Busy {
        assert s.smt by { IsSmt(s); }
        EligibleCore(s, guest, d);
      }
      hide CoreIsEligible;
      HostsExclusive(s, FillOne(s, c, d), d);
    }
  }

  lemma IsSmt(s: State)
    requires Exclusive(s)
    ensures s.smt && |s.core| == |s.cpus|
  {
  }

  lemma {:induction false} FillCoreExclusive(s: State, c: nat, d: nat)
    requires Exclusive(s) && Has(s, c)
    ensures Exclusive(FillCore(s, c, d))
    decreases |s.cpus| - d
  {
    hide FillOne, Exclusive;
    if d < |s.cpus| {
      FillOneExclusive(s, c, d);
      FillCoreExclusive(FillOne(s, c, d), c, d + 1);
    }
  }

  lemma RehostExclusive(s: State, c: nat)
    requires Exclusive(s) && Has(s, c)
    ensures Exclusive(Rehost(s, c))
  {
    if s.cpus[c].guest == NOBODY {
      IsSmt(s);
      var guest := RefillEffect(s, c);
      var t := Refill(s, c);
      hide Refill, FillCore, Exclusive;
      if guest != NOBODY && s.cpus[c].state != Busy {
        EligibleCore(s, guest, c);
      }
      hide CoreIsEligible;
      if guest == NOBODY {
        HostsExclusive(s, Rehost(s, c), c);
      } else {
        HostsExclusive(s, t, c);
        FillCoreExclusive(t, c, 0);
      }
    }
  }

  lemma LendExclusive(s: State, pid: Pid, c: nat)
    requires Exclusive(s) && Has(s, c)
    ensures Exclusive(LendCpu(s, pid, c))
  {
    if s.cpus[c].state != Disabled {
      var s1 := Put(s, c, LetGo(s.cpus[c], pid, s.queues));
      hide Exclusive, Rehost, UpdatedOccupied, Without;
      HostsExclusive(s, s1, c);
      RehostExclusive(s1, c);
      var t := Rehost(s1, c);
      HostsExclusive(t, LendCpu(s, pid, c), c);
    }
  }

  lemma TakeExclusive(s: State, pid: Pid, c: nat)
    requires Exclusive(s) && Has(s, c)
    ensures Exclusive(ReclaimCpu(s, pid, c).0)
    ensures Exclusive(AcquireCpu(s, pid, c).0)
    ensures Exclusive(BorrowCpu(s, pid, c).0)
  {
    IsSmt(s);
    if CoreIsEligible(s, pid, c) {
      EligibleCore(s, pid, c);
    }
    hide Exclusive, UpdatedOccupied, CoreIsEligible, CoreOnlyFor;
    HostsExclusive(s, ReclaimCpu(s, pid, c).0, c);
    HostsExclusive(s, AcquireCpu(s, pid, c).0, c);
    HostsExclusive(s, BorrowCpu(s, pid, c).0, c);
  }

  lemma GiveExclusive(s: State, pid: Pid, c: nat)
    requires Exclusive(s) && Has(s, c)
    ensures Exclusive(ReturnCpu(s, pid, c).0)
    ensures Exclusive(CpuinfoSpec.ReturnAsync(s, pid, c))
  {
    hide Exclusive, UpdatedOccupied, CoreIsEligible, CoreOnlyFor;
    HostsExclusive(s, ReturnCpu(s, pid, c).0, c);
    HostsExclusive(s, CpuinfoSpec.ReturnAsync(s, pid, c), c);
  }

  /** The acts on CPUs that are not about who owns them. */
  predicate Sharing(act: Act) {
    !act.Register? && !act.Leave? && !act.Forget? && !act.Own? && !act.Check?
  }

  /** Whatever CPUs are lent, borrowed, acquired, reclaimed or returned, polling or asynchronously, no
      core ever gets a second visitor. */
  lemma ActKeepsExclusive(s: State, pid: Pid, act: Act)
    requires Exclusive(s) && Sharing(act)
    ensures Exclusive(Do(s, pid, act))
  {
    IsSmt(s);
    hide Exclusive, LendCpu, ReclaimCpu, AcquireCpu, BorrowCpu, ReturnCpu, CpuinfoSpec.ReturnAsync;
    if act.Repost? || act.c >= |s.cpus| || act.Requeue? || act.Notify? {
      if |s.cpus| > 0 {
        var c := if act.Repost? || act.c >= |s.cpus| then 0 else act.c;
        HostsExclusive(s, Do(s, pid, act), c);
      } else {
        NoCpus(s, Do(s, pid, act));
      }
    } else {
      match act
      case Lend(c) => LendExclusive(s, pid, c);
      case Reclaim(c) => TakeExclusive(s, pid, c);
      case Acquire(c) => TakeExclusive(s, pid, c);
      case Borrow(c) => TakeExclusive(s, pid, c);
      case Return(c) => GiveExclusive(s, pid, c);
      case ReturnAsync(c) => GiveExclusive(s, pid, c);
    }
  }

  lemma NoCpus(s: State, t: State)
    requires Exclusive(s) && SameTopology(s, t) && |s.cpus| == 0
    ensures Exclusive(t)
  {
  }
}
