/** With SMT and polling, occupied_cores covers every CPU used by another than its owner, so return_all
    finds everything it has to return even though it edits the set it walks
    (src/LB_comm/shmem_cpuinfo.c). */
module CpuinfoSmtIndex {
  import opened Codes
  import opened CpuinfoSpec
  import opened CpuinfoActs
  import opened CpuinfoOps
  import opened CpuinfoSmt

  ghost predicate ListedAt(s: State, c: nat)
    requires c < |s.cpus|
  {
    Occupied(s.cpus[c], s.cpus[c].owner) ==> c in s.occupied
  }

  ghost predicate Listing(s: State) {
    forall c :: 0 <= c < |s.cpus| && Occupied(s.cpus[c], s.cpus[c].owner) ==> c in s.occupied
  }

  /** All the CPUs of the core of c have the same owner. */
  ghost predicate CoreOwned(s: State, c: nat)
    requires Has(s, c)
  {
    forall d :: 0 <= d < |s.cpus| && SameCore(s.core, c, d) ==> s.cpus[d].owner == s.cpus[c].owner
  }

  /** update_occupied_cores lists its core again, and leaves the bits of the other cores alone. */
  lemma UpdateLists(s: State, c: nat, d: nat)
    requires Has(s, c) && s.smt && d < |s.cpus| && (SameCore(s.core, c, d) ==> s.cpus[d].owner == s.cpus[c].owner)
    requires d != c ==> ListedAt(s, d)
    ensures ListedAt(UpdateOccupied(s, s.cpus[c].owner, c), d)
    ensures !SameCore(s.core, c, d) ==> (d in UpdatedOccupied(s, s.cpus[c].owner, c) <==> d in s.occupied)
  {
    assert d in CoreMask(s, c) <==> SameCore(s.core, c, d);
    assert c in CoreMask(s, c);
    if SameCore(s.core, c, d) && !CoreIsOccupied(s, s.cpus[c].owner, c) {
      assert !Occupied(s.cpus[d], s.cpus[c].owner);
    }
  }

  // ---------------------------------------------------------------- acts

  /** Without queues a CPU can only pass to its owner. */
  ghost predicate ToOwner(a: Cpu, b: Cpu) {
    b.owner == a.owner && b.state == a.state && (b.guest == a.guest || b.guest == a.owner)
  }

  lemma FillOneToOwner(s: State, c: nat, d: nat, e: nat)
    requires Has(s, c) && d < |s.cpus| && e < |s.cpus| && !s.queues
    ensures ToOwner(s.cpus[e], FillOne(s, c, d).cpus[e]) && FillOne(s, c, d).occupied == s.occupied
    ensures e == c ==> FillOne(s, c, d).cpus[e].guest == s.cpus[e].guest
  {
    if d != c && SameCore(s.core, c, d) && s.cpus[d].guest == NOBODY {
      var guest := RefillEffect(s, d);
      hide Refill, CoreIsEligible;
    }
  }

  lemma {:induction false} FillCoreToOwner(s: State, c: nat, d: nat, e: nat)
    requires Has(s, c) && e < |s.cpus| && !s.queues
    ensures ToOwner(s.cpus[e], FillCore(s, c, d).cpus[e]) && FillCore(s, c, d).occupied == s.occupied
    ensures e == c ==> FillCore(s, c, d).cpus[e].guest == s.cpus[e].guest
    decreases |s.cpus| - d
  {
    hide FillOne;
    if d < |s.cpus| {
      FillOneToOwner(s, c, d, e);
      FillCoreToOwner(FillOne(s, c, d), c, d + 1, e);
    }
  }

  lemma RehostToOwner(s: State, c: nat, e: nat)
    requires Has(s, c) && e < |s.cpus| && !s.queues
    ensures ToOwner(s.cpus[e], Rehost(s, c).cpus[e]) && Rehost(s, c).occupied == s.occupied
  {
    if s.cpus[c].guest == NOBODY {
      var guest := RefillEffect(s, c);
      hide Refill, FillCore, CoreIsEligible;
      FillCoreToOwner(Refill(s, c), c, 0, e);
    }
  }

  /** Lending keeps owners, and guests except for passing to the owner or becoming idle. */
  lemma LendEffect(s: State, pid: Pid, c: nat, e: nat)
    requires Has(s, c) && e < |s.cpus| && !s.queues
    ensures var a, b := s.cpus[e], LendCpu(s, pid, c).cpus[e];
      b.owner == a.owner && (b.guest == a.guest || b.guest == a.owner || (e == c && b.guest == NOBODY))
    ensures s.smt && !SameCore(s.core, c, e) ==> (e in LendCpu(s, pid, c).occupied <==> e in s.occupied)
    ensures s.smt && CoreOwned(s, c) && ListedAt(s, e) ==> ListedAt(LendCpu(s, pid, c), e)
  {
    if s.cpus[c].state != Disabled {
      var s1 := Put(s, c, LetGo(s.cpus[c], pid, s.queues));
      var t := Rehost(s1, c);
      hide Rehost, Without, CoreIsOccupied;
      RehostToOwner(s1, c, e);
      RehostToOwner(s1, c, c);
      LendBits(s, s1, t, pid, c, e);
    }
  }

  lemma LendBits(s: State, s1: State, t: State, pid: Pid, c: nat, e: nat)
    requires Has(s, c) && e < |s.cpus| && SameTopology(s, t) && t.occupied == s.occupied
    requires s1 == Put(s, c, LetGo(s.cpus[c], pid, s.queues)) && SameTopology(s1, t) && !s.queues
    requires ToOwner(s1.cpus[e], t.cpus[e]) && t == Rehost(s1, c)
    ensures var u := UpdateOccupied(t, t.cpus[c].owner, c);
      && (s.smt && !SameCore(s.core, c, e) ==> (e in u.occupied <==> e in s.occupied))
      && (s.smt && CoreOwned(s, c) && ListedAt(s, e) ==> ListedAt(u, e))
  {
    hide Without;
    if s.smt {
      if CoreOwned(s, c) {
        forall d | 0 <= d < |t.cpus| && SameCore(t.core, c, d) ensures t.cpus[d].owner == t.cpus[c].owner {
          RehostToOwner(s1, c, d);
          RehostToOwner(s1, c, c);
        }
        hide Rehost;
        if e == c || ListedAt(t, e) {
          UpdateLists(t, c, e);
        }
      }
      OtherCores(t, t.cpus[c].owner, c, e);
    }
  }

  lemma OtherCores(s: State, owner: nat, c: nat, d: nat)
    requires Has(s, c) && s.smt && d < |s.cpus|
    ensures !SameCore(s.core, c, d) ==> (d in UpdatedOccupied(s, owner, c) <==> d in s.occupied)
  {
    hide CoreIsOccupied;
  }

  lemma LendListing(s: State, pid: Pid, c: nat)
    requires Exclusive(s) && Listing(s) && !s.queues && Has(s, c)
    ensures Listing(LendCpu(s, pid, c))
  {
    var t := LendCpu(s, pid, c);
    assert CoreOwned(s, c);
    hide LendCpu, Exclusive;
    IsSmt(s);
    forall e | 0 <= e < |t.cpus| ensures ListedAt(t, e) {
      LendEffect(s, pid, c, e);
    }
    assert forall e :: 0 <= e < |t.cpus| && Occupied(t.cpus[e], t.cpus[e].owner) ==> ListedAt(t, e);
  }

  /** A CPU changed by an act that then updates its core. */
  lemma UpdateListing(s: State, t: State, c: nat)
    requires Exclusive(s) && Listing(s) && Has(s, c) && SameTopology(s, t) && t.occupied == s.occupied
    requires forall d :: 0 <= d < |s.cpus| && d != c ==> t.cpus[d] == s.cpus[d]
    requires t.cpus[c].owner == s.cpus[c].owner
    ensures Listing(UpdateOccupied(t, t.cpus[c].owner, c))
  {
    var u := UpdateOccupied(t, t.cpus[c].owner, c);
    assert CoreOwned(t, c);
    hide Exclusive, UpdatedOccupied;
    IsSmt(s);
    forall e | 0 <= e < |u.cpus| ensures ListedAt(u, e) {
      UpdateLists(t, c, e);
    }
    assert forall e :: 0 <= e < |u.cpus| && Occupied(u.cpus[e], u.cpus[e].owner) ==> ListedAt(u, e);
  }

  lemma HostedListing(s: State, pid: Pid, c: nat)
    requires Exclusive(s) && Listing(s) && Has(s, c)
    ensures Listing(Hosted(s, pid, c))
  {
    var cpu := s.cpus[c];
    var t := CpuinfoSpec.Push(Put(s, c, cpu.(guest := pid)).(free := s.free - {c}), Enable, pid, c);
    UpdateListing(s, t, c);
    hide UpdatedOccupied, Exclusive;
  }

  lemma VacatedListing(s: State, c: nat)
    requires Exclusive(s) && Listing(s) && Has(s, c)
    ensures Listing(Vacated(s, c))
  {
    var cpu := s.cpus[c];
    var t := if cpu.state == Busy then Put(s, c, cpu.(guest := cpu.owner))
             else Put(s, c, cpu.(guest := NOBODY)).(free := s.free + {c});
    UpdateListing(s, t, c);
    hide UpdatedOccupied, Exclusive;
  }

  lemma TakeListing(s: State, pid: Pid, c: nat)
    requires Exclusive(s) && Listing(s) && Has(s, c)
    ensures Listing(ReclaimCpu(s, pid, c).0)
    ensures Listing(BorrowCpu(s, pid, c).0)
  {
    HostedListing(s, pid, c);
    hide Hosted, Exclusive, CoreIsEligible;
  }

  lemma AcquireListing(s: State, pid: Pid, c: nat)
    requires Exclusive(s) && Listing(s) && Has(s, c)
    ensures Listing(AcquireCpu(s, pid, c).0)
  {
    HostedListing(s, pid, c);
    if s.cpus[c].owner == pid && s.cpus[c].guest != NOBODY {
      var t := CpuinfoSpec.Push(CpuinfoSpec.Push(Put(s, c, s.cpus[c].(state := Busy)), Disable, s.cpus[c].guest, c), Enable, pid, c);
      UpdateListing(s, t, c);
    }
    hide Hosted, Exclusive, CoreIsEligible, UpdatedOccupied;
  }

  lemma GiveListing(s: State, pid: Pid, c: nat)
    requires Exclusive(s) && Listing(s) && Has(s, c)
    ensures Listing(ReturnCpu(s, pid, c).0)
    ensures Listing(CpuinfoSpec.ReturnAsync(s, pid, c))
  {
    VacatedListing(s, c);
    hide Vacated, Exclusive, Keeps;
  }

  lemma ActKeepsListing(s: State, pid: Pid, act: Act)
    requires Exclusive(s) && Listing(s) && !s.queues && Sharing(act)
    ensures Listing(Do(s, pid, act))
  {
    IsSmt(s);
    hide Exclusive, LendCpu, ReclaimCpu, AcquireCpu, BorrowCpu, ReturnCpu, CpuinfoSpec.ReturnAsync;
    if !act.Repost? && act.c < |s.cpus| && !act.Requeue? && !act.Notify? {
      hide Listing;
      match act
      case Lend(c) => LendListing(s, pid, c);
      case Reclaim(c) => TakeListing(s, pid, c);
      case Acquire(c) => AcquireListing(s, pid, c);
      case Borrow(c) => TakeListing(s, pid, c);
      case Return(c) => GiveListing(s, pid, c);
      case ReturnAsync(c) => GiveListing(s, pid, c);
    }
  }

  // ---------------------------------------------------------------- return_all

  /** A CPU that pid may keep borrowing: lent, in a core where nothing has been reclaimed. */
  ghost predicate MayStay(s: State, pid: Pid, c: nat)
    requires Has(s, c)
  {
    s.cpus[c].state == Lent && forall d :: 0 <= d < |s.cpus| && SameCore(s.core, c, d) ==> s.cpus[d].state != Busy
  }

  /** pid uses CPU c of another live process. */
  predicate Borrows(cpu: Cpu, pid: Pid) {
    cpu.guest == pid && cpu.owner != NOBODY && cpu.owner != pid
  }

  ghost predicate DoneBelow(s: State, pid: Pid, c: nat) {
    |s.core| == |s.cpus| &&
    forall d :: 0 <= d < c && d < |s.cpus| && Borrows(s.cpus[d], pid) ==> MayStay(s, pid, d)
  }

  /** Returning a CPU changes no owner and no state, and gives pid nothing. */
  ghost predicate GivesUp(s: State, t: State, pid: Pid) {
    SameTopology(s, t) &&
    forall d :: 0 <= d < |s.cpus| ==>
      t.cpus[d].owner == s.cpus[d].owner && t.cpus[d].state == s.cpus[d].state &&
      (t.cpus[d].guest == s.cpus[d].guest || t.cpus[d].guest in {NOBODY, s.cpus[d].owner})
  }

  lemma ReturnGivesUp(s: State, pid: Pid, c: nat)
    requires Has(s, c)
    ensures GivesUp(s, ReturnCpu(s, pid, c).0, pid)
  {
    hide UpdatedOccupied, Keeps;
  }

  lemma GivesUpDone(s: State, t: State, pid: Pid, c: nat)
    requires DoneBelow(s, pid, c) && GivesUp(s, t, pid)
    ensures DoneBelow(t, pid, c)
  {
    forall d | 0 <= d < c && d < |t.cpus| && Borrows(t.cpus[d], pid) ensures MayStay(t, pid, d) {
      assert Borrows(s.cpus[d], pid) && MayStay(s, pid, d);
    }
  }

  /** After visiting c, pid uses it only if it may stay; a borrowed CPU is always visited. */
  lemma VisitSettles(s: State, pid: Pid, c: nat)
    requires Exclusive(s) && Listing(s) && Has(s, c)
    ensures c in s.occupied && Borrows(ReturnCpu(s, pid, c).0.cpus[c], pid) ==> MayStay(ReturnCpu(s, pid, c).0, pid, c)
    ensures c !in s.occupied ==> !Borrows(s.cpus[c], pid)
  {
    hide UpdatedOccupied;
    if c in s.occupied && Keeps(s, pid, c) && Borrows(s.cpus[c], pid) {
      forall d | 0 <= d < |s.cpus| && SameCore(s.core, c, d) ensures s.cpus[d].state != Busy {
        assert Admits(s.cpus[d], pid) && s.cpus[d].owner == s.cpus[c].owner;
      }
    }
  }

  /** After return_all every CPU that pid still uses of a live owner is lent, in a core without reclaimed
      CPUs, although the loop edits the set that it walks. */
  lemma {:induction false} ReturnAllSettles(s: State, pid: Pid, code: Code, c: nat)
    requires Exclusive(s) && Listing(s) && DoneBelow(s, pid, c)
    ensures var t := ReturnAll(s, pid, code, c).0;
      DoneBelow(t, pid, |t.cpus|) && Exclusive(t) && Listing(t) && GivesUp(s, t, pid)
    decreases |s.cpus| - c
  {
    hide Exclusive, Listing, ReturnCpu, DoneBelow, GivesUp;
    IsSmt(s);
    if c >= |s.cpus| {
      AllDone(s, pid, c);
    } else {
      GiveExclusive(s, pid, c);
      GiveListing(s, pid, c);
      ReturnGivesUp(s, pid, c);
      VisitDone(s, pid, c);
      if c in s.occupied {
        var (t, local) := ReturnCpu(s, pid, c);
        var code1 := if local == Success && code == NoUpdt then Success else code;
        ReturnAllSettles(t, pid, code1, c + 1);
        GivesUpTwice(s, t, ReturnAll(t, pid, code1, c + 1).0, pid);
      } else {
        ReturnAllSettles(s, pid, code, c + 1);
      }
    }
  }

  lemma AllDone(s: State, pid: Pid, c: nat)
    requires DoneBelow(s, pid, c) && c >= |s.cpus|
    ensures DoneBelow(s, pid, |s.cpus|) && GivesUp(s, s, pid)
  {
    hide MayStay;
  }

  lemma VisitDone(s: State, pid: Pid, c: nat)
    requires Exclusive(s) && Listing(s) && DoneBelow(s, pid, c) && Has(s, c)
    ensures if c in s.occupied then DoneBelow(ReturnCpu(s, pid, c).0, pid, c + 1) else DoneBelow(s, pid, c + 1)
  {
    VisitSettles(s, pid, c);
    ReturnGivesUp(s, pid, c);
    GivesUpDone(s, ReturnCpu(s, pid, c).0, pid, c);
    hide Exclusive, Listing, ReturnCpu, GivesUp, MayStay;
  }

  lemma GivesUpTwice(s: State, t: State, u: State, pid: Pid)
    requires GivesUp(s, t, pid) && GivesUp(t, u, pid)
    ensures GivesUp(s, u, pid)
  {
  }
}
