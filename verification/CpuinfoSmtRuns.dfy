/** Runs of the CPU table with SMT, polling mode and process masks made of whole cores
    (src/LB_comm/shmem_cpuinfo.c). */
module CpuinfoSmtRuns {
  import opened Codes
  import opened CpuinfoSpec
  import opened CpuinfoActs
  import opened CpuinfoOps
  import opened CpuinfoReaches
  import opened CpuinfoSmt
  import opened CpuinfoSmtIndex
  import CpuinfoCalls

  ghost predicate WholeCores(core: seq<nat>, mask: set<nat>) {
    forall c, d :: 0 <= c < |core| && 0 <= d < |core| && SameCore(core, c, d) && c in mask ==> d in mask
  }

  // ---------------------------------------------------------------- registration

  lemma {:induction false} RegisterMaskCpus(s: State, pid: Pid, pre: nat, mask: set<nat>, c: nat, d: nat)
    requires |s.core| == |s.cpus| && d < |s.cpus|
    ensures RegisterMask(s, pid, pre, mask, c).cpus[d] ==
      if d in mask && c <= d then Registered(s.cpus[d], pid, pre) else s.cpus[d]
    decreases |s.cpus| - c
  {
    hide UpdatedOccupied;
    if c < |s.cpus| {
      RegisterMaskCpus(if c in mask then RegisterCpu(s, pid, pre, c) else s, pid, pre, mask, c + 1, d);
    }
  }

  /** A process that registers whole cores takes over the cores with the visitor they had, if any. */
  lemma RegisterExclusive(s: State, pid: Pid, pre: nat, mask: set<nat>)
    requires Exclusive(s) && WholeCores(s.core, mask) && Registrable(s, pid, pre, mask)
    ensures Exclusive(RegisterMask(s, pid, pre, mask, 0))
  {
    var t := RegisterMask(s, pid, pre, mask, 0);
    forall d | 0 <= d < |s.cpus|
      ensures t.cpus[d] == if d in mask then Registered(s.cpus[d], pid, pre) else s.cpus[d]
    {
      RegisterMaskCpus(s, pid, pre, mask, 0, d);
    }
    hide RegisterMask;
    forall c, d | 0 <= c < |t.cpus| && 0 <= d < |t.cpus| && SameCore(t.core, c, d)
      ensures t.cpus[c].owner == t.cpus[d].owner
      ensures Visited(t.cpus[c]) && Visited(t.cpus[d]) ==> t.cpus[c].guest == t.cpus[d].guest
    {
      assert SameCore(s.core, d, c);
      assert c in mask <==> d in mask;
    }
  }

  /** Halfway through the loop of register_process: below c the cores of the mask are already of pid. */
  ghost predicate Registering(s: State, pid: Pid, mask: set<nat>, c: nat) {
    && s.smt && |s.core| == |s.cpus| && WholeCores(s.core, mask)
    && (forall d :: 0 <= d < |s.cpus| && d in mask && d < c ==> s.cpus[d].owner == pid)
    && (forall d :: 0 <= d < |s.cpus| && (d !in mask || d < c) && Occupied(s.cpus[d], s.cpus[d].owner) ==> d in s.occupied)
  }

  lemma RegisterStep(s: State, pid: Pid, pre: nat, mask: set<nat>, c: nat)
    requires Registering(s, pid, mask, c) && c < |s.cpus| && c in mask
    ensures Registering(RegisterCpu(s, pid, pre, c), pid, mask, c + 1)
  {
    var s1 := Put(s, c, Registered(s.cpus[c], pid, pre)).(free := s.free - {c});
    var t := RegisterCpu(s, pid, pre, c);
    hide UpdatedOccupied;
    forall d | 0 <= d < |t.cpus| && (d !in mask || d < c + 1) ensures ListedAt(t, d) {
      assert SameCore(s.core, c, d) ==> d in mask;
      UpdateLists(s1, c, d);
    }
    assert forall d :: 0 <= d < |t.cpus| && (d !in mask || d < c + 1) && Occupied(t.cpus[d], t.cpus[d].owner) ==> ListedAt(t, d);
  }

  lemma {:induction false} RegisterListing(s: State, pid: Pid, pre: nat, mask: set<nat>, c: nat)
    requires Registering(s, pid, mask, c)
    ensures Listing(RegisterMask(s, pid, pre, mask, c))
    decreases |s.cpus| - c
  {
    if c < |s.cpus| {
      if c in mask {
        RegisterStep(s, pid, pre, mask, c);
      } else {
        assert Registering(s, pid, mask, c + 1);
      }
      hide RegisterCpu, Registering;
      RegisterListing(if c in mask then RegisterCpu(s, pid, pre, c) else s, pid, pre, mask, c + 1);
    }
  }

  // ---------------------------------------------------------------- deregistration

  /** What a leaving process does to a CPU: its own become orphans, the others may pass to their owner. */
  ghost predicate LeftBy(a: Cpu, b: Cpu, pid: Pid) {
    && (b.state == Disabled ==> a.state == Disabled || b.owner == NOBODY)
    && (|| (b.owner == a.owner && (b.guest == a.guest || b.guest == NOBODY || b.guest == b.owner))
        || (a.owner == pid && b.owner == NOBODY && (b.guest == NOBODY || (b.guest == a.guest && b.guest != pid))))
  }

  lemma LeftTwice(a: Cpu, b: Cpu, d: Cpu, pid: Pid)
    requires LeftBy(a, b, pid) && LeftBy(b, d, pid) && (a.state == Disabled ==> a.owner == NOBODY)
    ensures LeftBy(a, d, pid)
  {
  }

  /** Without queues, a CPU lent by its owner does not come back to it. */
  lemma LendAway(s: State, pid: Pid, c: nat)
    requires Has(s, c) && !s.queues && s.cpus[c].owner == pid && s.cpus[c].state != Disabled
    ensures var cpu := LendCpu(s, pid, c).cpus[c];
      cpu.guest != pid && cpu.state == Lent && cpu.owner == pid && (cpu.guest == NOBODY || cpu.guest == s.cpus[c].guest)
  {
    hide UpdatedOccupied, FillCore;
  }

  lemma LendState(s: State, pid: Pid, c: nat, e: nat)
    requires Has(s, c) && e < |s.cpus|
    ensures LendCpu(s, pid, c).cpus[e].state == Disabled ==> s.cpus[e].state == Disabled
  {
    if s.cpus[c].state != Disabled {
      RehostRole(Put(s, c, LetGo(s.cpus[c], pid, s.queues)), c, e);
      hide Rehost, Without, UpdatedOccupied;
    }
  }

  lemma ShutEffect(s: State, pid: Pid, c: nat, e: nat)
    requires Has(s, c) && e < |s.cpus| && s.cpus[c].owner == pid
    ensures var a, b := s.cpus[e], ShutCpu(s, pid, c).cpus[e];
      b.owner == a.owner && if e == c then b.guest != pid && (b.guest == NOBODY || b.guest == a.guest) else b == a
  {
  }

  lemma LeaveEffect(s: State, pid: Pid, public: bool, c: nat, e: nat)
    requires Has(s, c) && e < |s.cpus| && !s.queues && OwnersEnabled(s)
    ensures LeftBy(s.cpus[e], LeaveCpu(s, pid, public, c).cpus[e], pid)
    ensures e == c ==> LeaveCpu(s, pid, public, c).cpus[e].owner != pid
  {
    LendEffect(s, pid, c, e);
    LendState(s, pid, c, e);
    if s.cpus[c].owner == pid {
      LendAway(s, pid, c);
      ShutEffect(s, pid, c, e);
    }
    hide LendCpu, ShutCpu;
  }

  lemma LeaveEnabled(s: State, pid: Pid, public: bool, c: nat)
    requires Has(s, c) && !s.queues && OwnersEnabled(s)
    ensures OwnersEnabled(LeaveCpu(s, pid, public, c))
  {
    var t := LeaveCpu(s, pid, public, c);
    forall e | 0 <= e < |t.cpus| && t.cpus[e].state == Disabled ensures t.cpus[e].owner == NOBODY {
      LeaveEffect(s, pid, public, c, e);
    }
  }

  lemma {:induction false} LeaveFromEffect(s: State, pid: Pid, public: bool, c: nat, e: nat)
    requires |s.core| == |s.cpus| && e < |s.cpus| && !s.queues && OwnersEnabled(s)
    requires e < c ==> s.cpus[e].owner != pid
    ensures var t := LeaveFrom(s, pid, public, c);
      LeftBy(s.cpus[e], t.cpus[e], pid) && t.cpus[e].owner != pid && OwnersEnabled(t)
    decreases |s.cpus| - c
  {
    if c < |s.cpus| {
      LeaveEffect(s, pid, public, c, e);
      LeaveEnabled(s, pid, public, c);
      var t := LeaveCpu(s, pid, public, c);
      assert s.cpus[e].state == Disabled ==> s.cpus[e].owner == NOBODY;
      hide LeaveCpu, OwnersEnabled, LeftBy;
      LeaveFromEffect(t, pid, public, c + 1, e);
      LeftTwice(s.cpus[e], t.cpus[e], LeaveFrom(t, pid, public, c + 1).cpus[e], pid);
    }
  }

  lemma LeaveExclusive(s: State, pid: Pid, public: bool)
    requires Exclusive(s) && !s.queues
    ensures Exclusive(LeaveFrom(s, pid, public, 0))
  {
    var t := LeaveFrom(s, pid, public, 0);
    forall e | 0 <= e < |s.cpus| ensures LeftBy(s.cpus[e], t.cpus[e], pid) && t.cpus[e].owner != pid && OwnersEnabled(t) {
      LeaveFromEffect(s, pid, public, 0, e);
    }
    hide LeaveFrom;
    forall c, d | 0 <= c < |t.cpus| && 0 <= d < |t.cpus| && SameCore(t.core, c, d)
      ensures t.cpus[c].owner == t.cpus[d].owner
      ensures Visited(t.cpus[c]) && Visited(t.cpus[d]) ==> t.cpus[c].guest == t.cpus[d].guest
    {
      LeftVisitor(s.cpus[c], t.cpus[c], pid);
      LeftVisitor(s.cpus[d], t.cpus[d], pid);
    }
  }

  lemma LeftVisitor(a: Cpu, b: Cpu, pid: Pid)
    requires LeftBy(a, b, pid) && b.owner != pid
    ensures Visited(b) ==> Visited(a) && b.guest == a.guest
    ensures b.owner == if a.owner == pid then NOBODY else a.owner
  {
  }

  /** Halfway through deregister: mine are the cores of pid, below c already without owner. */
  ghost predicate Leaving(s: State, pid: Pid, mine: set<nat>, c: nat) {
    && s.smt && !s.queues && |s.core| == |s.cpus| && WholeCores(s.core, mine) && OwnersEnabled(s)
    && (forall d :: 0 <= d < |s.cpus| ==> if d in mine then s.cpus[d].owner in {pid, NOBODY} else s.cpus[d].owner != pid)
    && (forall d :: 0 <= d < |s.cpus| && d < c ==> s.cpus[d].owner != pid)
    && (forall d, e :: 0 <= d < |s.cpus| && 0 <= e < |s.cpus| && SameCore(s.core, d, e) && d !in mine
         ==> s.cpus[d].owner == s.cpus[e].owner)
    && (forall d :: 0 <= d < |s.cpus| && d !in mine && Occupied(s.cpus[d], s.cpus[d].owner) ==> d in s.occupied)
  }

  lemma LeaveOwners(s: State, pid: Pid, public: bool, mine: set<nat>, c: nat, d: nat)
    requires Leaving(s, pid, mine, c) && c < |s.cpus| && d < |s.cpus|
    ensures var b := LeaveCpu(s, pid, public, c).cpus[d];
      && (if d in mine then b.owner in {pid, NOBODY} else b.owner == s.cpus[d].owner)
      && (d < c + 1 ==> b.owner != pid)
  {
    LeaveEffect(s, pid, public, c, d);
    hide LeaveCpu;
  }

  /** A CPU outside the cores of pid stays listed while pid leaves. */
  lemma LeaveListed(s: State, pid: Pid, public: bool, mine: set<nat>, c: nat, d: nat)
    requires Leaving(s, pid, mine, c) && c < |s.cpus| && d < |s.cpus| && d !in mine
    ensures ListedAt(LeaveCpu(s, pid, public, c), d)
  {
    assert ListedAt(s, d);
    LendEffect(s, pid, c, d);
    if s.cpus[c].owner == pid {
      assert c in mine && !SameCore(s.core, c, d);
    } else if c in mine {
      assert !SameCore(s.core, c, d);
    } else {
      assert CoreOwned(s, c);
    }
    hide LendCpu, Leaving;
  }

  lemma LeaveStep(s: State, pid: Pid, public: bool, mine: set<nat>, c: nat)
    requires Leaving(s, pid, mine, c) && c < |s.cpus|
    ensures Leaving(LeaveCpu(s, pid, public, c), pid, mine, c + 1)
  {
    var t := LeaveCpu(s, pid, public, c);
    LeaveEnabled(s, pid, public, c);
    forall d | 0 <= d < |t.cpus|
      ensures if d in mine then t.cpus[d].owner in {pid, NOBODY} else t.cpus[d].owner == s.cpus[d].owner
      ensures d < c + 1 ==> t.cpus[d].owner != pid
      ensures d !in mine && Occupied(t.cpus[d], t.cpus[d].owner) ==> d in t.occupied
    {
      LeaveOwners(s, pid, public, mine, c, d);
      if d !in mine {
        LeaveListed(s, pid, public, mine, c, d);
      }
    }
    hide LeaveCpu, OwnersEnabled;
    forall d, e | 0 <= d < |t.cpus| && 0 <= e < |t.cpus| && SameCore(t.core, d, e) && d !in mine
      ensures t.cpus[d].owner == t.cpus[e].owner
    {
      assert SameCore(s.core, e, d);
      assert e !in mine;
    }
  }

  lemma {:induction false} LeaveListing(s: State, pid: Pid, public: bool, mine: set<nat>, c: nat)
    requires Leaving(s, pid, mine, c)
    ensures Listing(LeaveFrom(s, pid, public, c))
    decreases |s.cpus| - c
  {
    if c < |s.cpus| {
      LeaveStep(s, pid, public, mine, c);
      hide LeaveCpu, Leaving;
      LeaveListing(LeaveCpu(s, pid, public, c), pid, public, mine, c + 1);
    }
  }

  lemma StartLeaving(s: State, pid: Pid, mine: set<nat>)
    requires Exclusive(s) && Listing(s) && !s.queues
    requires forall d: nat :: d in mine <==> d < |s.cpus| && s.cpus[d].owner == pid
    ensures Leaving(s, pid, mine, 0)
  {
  }

  function OwnedBy(s: State, pid: Pid): (r: set<nat>)
    ensures forall d: nat :: d in r <==> d < |s.cpus| && s.cpus[d].owner == pid
  {
    set d | 0 <= d < |s.cpus| && s.cpus[d].owner == pid
  }

  // ---------------------------------------------------------------- runs

  ghost predicate Sane(s: State) {
    Exclusive(s) && Listing(s) && !s.queues
  }

  lemma {:induction false} SharingRun(s: State, steps: seq<Step>, pid: Pid)
    requires Sane(s) && LewiBy(steps, pid, false)
    ensures Sane(Run(s, steps))
    decreases |steps|
  {
    IsSmt(s);
    hide Do, Exclusive, Listing;
    if steps != [] {
      ActKeepsExclusive(s, steps[0].pid, steps[0].act);
      ActKeepsListing(s, steps[0].pid, steps[0].act);
      SharingRun(Do(s, steps[0].pid, steps[0].act), steps[1..], pid);
    }
  }

  /** The operations that keep cores exclusive; registration does not steal and takes whole cores. */
  ghost predicate CoreWise(s: State, e: CpuinfoCalls.Event) {
    match e
    case Lewi(_, _) => true
    case Register(_, _, mask, steal) => !steal && WholeCores(s.core, mask)
    case _ => false
  }

  lemma DeregisterKeepsSane(s: State, pid: Pid, public: bool)
    requires Sane(s)
    ensures |s.core| == |s.cpus| && Sane(Deregister(s, pid, public))
  {
    IsSmt(s);
    var mine := OwnedBy(s, pid);
    StartLeaving(s, pid, mine);
    hide LeaveFrom, Exclusive, Listing, Leaving;
    LeaveListing(s, pid, public, mine, 0);
    LeaveExclusive(s, pid, public);
  }

  lemma CallKeepsSane(s: State, pid: Pid, call: CpuinfoCalls.Call)
    requires Sane(s)
    ensures |s.core| == |s.cpus| && Sane(CpuinfoCalls.Invoke(s, pid, call))
  {
    IsSmt(s);
    if call.Deregister? {
      DeregisterKeepsSane(s, pid, call.public);
      hide Sane, Deregister;
    } else {
      CpuinfoCalls.CallReaches(s, pid, call);
      hide CpuinfoCalls.Invoke, Run, Sane;
      var steps :| LewiBy(steps, pid, false) && Run(s, steps) == CpuinfoCalls.Invoke(s, pid, call);
      SharingRun(s, steps, pid);
    }
  }

  lemma RegisterKeepsSane(s: State, pid: Pid, pre: nat, mask: set<nat>)
    requires Sane(s) && WholeCores(s.core, mask)
    ensures |s.core| == |s.cpus| && Sane(RegisterProcess(s, pid, pre, mask).0)
  {
    IsSmt(s);
    if Registrable(s, pid, pre, mask) {
      RegisterListing(s, pid, pre, mask, 0);
      RegisterExclusive(s, pid, pre, mask);
    }
    assert mask == {} ==> Registrable(s, pid, pre, mask);
    hide RegisterMask, Exclusive, Listing, Registrable;
  }

  lemma EventKeepsSane(s: State, e: CpuinfoCalls.Event)
    requires Sane(s) && CoreWise(s, e)
    ensures |s.core| == |s.cpus| && Sane(CpuinfoCalls.Happen(s, e))
  {
    IsSmt(s);
    hide Sane, CpuinfoCalls.Invoke, RegisterProcess;
    match e
    case Lewi(pid, call) => CallKeepsSane(s, pid, call);
    case Register(pid, pre, mask, steal) => RegisterKeepsSane(s, pid, pre, mask);
  }

  ghost predicate AllCoreWise(s: State, events: seq<CpuinfoCalls.Event>)
    requires |s.core| == |s.cpus|
    decreases |events|
  {
    events == [] || (CoreWise(s, events[0]) && AllCoreWise(CpuinfoCalls.Happen(s, events[0]), events[1..]))
  }

  /** In every run of operations on whole cores in polling mode, at most one process other than the owner
      uses the CPUs of any core, and occupied_cores lists every CPU that it uses. */
  lemma {:induction false} HistoryKeepsSane(s: State, events: seq<CpuinfoCalls.Event>)
    requires |s.core| == |s.cpus| && Sane(s) && AllCoreWise(s, events)
    ensures Sane(CpuinfoCalls.History(s, events))
    decreases |events|
  {
    if events != [] {
      EventKeepsSane(s, events[0]);
      hide CpuinfoCalls.Happen, Sane, CoreWise;
      HistoryKeepsSane(CpuinfoCalls.Happen(s, events[0]), events[1..]);
    }
  }

  lemma StartIsSane(core: seq<nat>, respectCpuset: bool)
    ensures Sane(Start(core, true, respectCpuset))
  {
  }

  /** After any such run, return_all leaves pid only lent CPUs of cores where nothing is reclaimed. */
  lemma ReturnAllAfterAnyRun(s: State, events: seq<CpuinfoCalls.Event>, pid: Pid)
    requires |s.core| == |s.cpus| && Sane(s) && AllCoreWise(s, events)
    ensures var t := CpuinfoCalls.Invoke(CpuinfoCalls.History(s, events), pid, CpuinfoCalls.ReturnAll);
      |t.core| == |t.cpus| && forall c :: 0 <= c < |t.cpus| && Borrows(t.cpus[c], pid) ==> MayStay(t, pid, c)
  {
    HistoryKeepsSane(s, events);
    var u := CpuinfoCalls.History(s, events);
    hide CpuinfoCalls.History, AllCoreWise;
    IsSmt(u);
    ReturnAllSettles(u, pid, NoUpdt, 0);
    hide Exclusive, Listing, ReturnAll, MayStay;
  }

  lemma ReturnAllInReach(core: seq<nat>, respectCpuset: bool, events: seq<CpuinfoCalls.Event>, pid: Pid)
    requires AllCoreWise(Start(core, true, respectCpuset), events)
    ensures var t := CpuinfoCalls.Invoke(CpuinfoCalls.History(Start(core, true, respectCpuset), events), pid, CpuinfoCalls.ReturnAll);
      |t.core| == |t.cpus| && forall c :: 0 <= c < |t.cpus| && Borrows(t.cpus[c], pid) ==> MayStay(t, pid, c)
  {
    StartIsSane(core, respectCpuset);
    ReturnAllAfterAnyRun(Start(core, true, respectCpuset), events, pid);
  }
}
