/** Runs of the CPU table that end where an operation does not do what it promises. Each is the input that shows the
    exact condition of CpuinfoLeaving or CpuinfoOccupied to be needed (src/LB_comm/shmem_cpuinfo.c). */
module CpuinfoWitnesses {
  import opened Codes
  import opened CpuinfoSpec
  import opened CpuinfoActs
  import opened CpuinfoOps
  import opened CpuinfoOccupied
  import opened CpuinfoLeaving
  import C = CpuinfoCalls

  lemma NextEvent(s: State, e: C.Event, rest: seq<C.Event>)
    requires |s.core| == |s.cpus|
    ensures C.History(s, [e] + rest) == C.History(C.Happen(s, e), rest)
  {
    hide C.Happen;
    assert ([e] + rest)[1..] == rest;
  }

  /** A node of one CPU. */
  ghost predicate Single(s: State, cpu: Cpu, queues: bool) {
    s.core == [0] && !s.smt && s.queues == queues && s.cpus == [cpu]
  }

  lemma SingleRegister(s: State, pid: Pid, requests: seq<Pid>)
    requires Single(s, Cpu(NOBODY, NOBODY, CpuState.Disabled, requests), s.queues)
    ensures var t := C.Happen(s, C.Register(pid, NOBODY, {0}, false));
      Single(t, Cpu(pid, pid, Busy, requests), s.queues) && t.petitions == s.petitions && t.free == s.free - {0}
  {
    assert Registrable(s, pid, NOBODY, {0});
    hide UpdatedOccupied;
    var t := RegisterCpu(s, pid, NOBODY, 0);
    assert RegisterMask(t, pid, NOBODY, {0}, 1) == t;
    assert RegisterMask(s, pid, NOBODY, {0}, 0) == t;
  }

  lemma SingleLend(s: State, pid: Pid)
    requires Single(s, Cpu(pid, pid, Busy, []), false)
    ensures Single(C.Happen(s, C.Lewi(pid, C.LendCpu(0))), Cpu(pid, NOBODY, Lent, []), false)
  {
    hide UpdatedOccupied, FillCore;
  }

  lemma SingleBorrow(s: State, pid: Pid, p: Pid)
    requires Single(s, Cpu(p, NOBODY, Lent, []), false) && p != pid
    ensures Single(C.Happen(s, C.Lewi(pid, C.BorrowCpu(0))), Cpu(p, pid, Lent, []), false)
  {
    hide UpdatedOccupied;
  }

  lemma SingleLeave(s: State, pid: Pid, guest: Pid)
    requires Single(s, Cpu(pid, guest, Lent, []), false) && guest != pid
    ensures Single(C.Happen(s, C.Lewi(pid, C.Deregister(false))), Cpu(NOBODY, guest, CpuState.Disabled, []), false)
  {
    var t := LeaveCpu(s, pid, false, 0);
    assert LeaveFrom(t, pid, false, 1) == t;
    assert LeaveFrom(s, pid, false, 0) == t;
  }

  /** 1 lends its CPU, 2 borrows it, and 1 leaves without making it public: the CPU is disabled under 2, and
      neither deregister, nor reset, nor a limit of no CPUs takes it from 2. */
  lemma DisabledStaysInUse()
    ensures var s := C.History(Start([0], false, true), [C.Register(1, NOBODY, {0}, false), C.Lewi(1, C.LendCpu(0)),
        C.Lewi(2, C.BorrowCpu(0)), C.Lewi(1, C.Deregister(false))]);
      && s.cpus == [Cpu(NOBODY, 2, CpuState.Disabled, [])]
      && Deregister(s, 2, false).cpus[0].guest == 2 && Reset(s, 2).cpus[0].guest == 2 && UpdateMax(s, 2, 0).cpus[0].guest == 2
  {
    var s0 := Start([0], false, true);
    var e1, e2, e3, e4 := C.Register(1, NOBODY, {0}, false), C.Lewi(1, C.LendCpu(0)), C.Lewi(2, C.BorrowCpu(0)),
      C.Lewi(1, C.Deregister(false));
    hide C.Happen, C.History, Deregister, Reset, UpdateMax;
    SingleRegister(s0, 1, []);
    var s1 := C.Happen(s0, e1);
    SingleLend(s1, 1);
    var s2 := C.Happen(s1, e2);
    SingleBorrow(s2, 2, 1);
    var s3 := C.Happen(s2, e3);
    SingleLeave(s3, 1, 2);
    var s4 := C.Happen(s3, e4);
    assert C.History(s0, [e1, e2, e3, e4]) == s4 by {
      assert [e1, e2, e3, e4] == [e1] + ([e2] + ([e3] + ([e4] + [])));
      NextEvent(s0, e1, [e2] + ([e3] + ([e4] + [])));
      NextEvent(s1, e2, [e3] + ([e4] + []));
      NextEvent(s2, e3, [e4] + []);
      NextEvent(s3, e4, []);
      assert C.History(s4, []) == s4 by { Nothing(s4); }
    }
    DeregisterExact(s4, 2, false, 0);
    ResetExact(s4, 2, 0);
    UpdateMaxExact(s4, 2, 0, 0);
  }

  lemma Nothing(s: State)
    requires |s.core| == |s.cpus|
    ensures C.History(s, []) == s
  {
  }

  /** The first process is asynchronous. */
  lemma QueuesFirst(rest: seq<C.Event>)
    ensures C.History(Start([0], false, true), [C.EnableQueues(1)] + rest) ==
      C.History(Start([0], false, true).(queues := true), rest)
  {
    NextEvent(Start([0], false, true), C.EnableQueues(1), rest);
  }

  lemma SinglePetition(s: State, pid: Pid)
    requires Single(s, Cpu(pid, pid, Busy, []), true) && s.petitions == []
    ensures var t := C.Happen(s, C.Lewi(pid, C.AcquireNcpus(true, 1, [0])));
      Single(t, Cpu(pid, pid, Busy, []), true) && t.petitions == [Petition(pid, 1, {0})]
  {
    forall kind: Kind ensures Select(s, pid, [0], kind) == [] {
      assert SelectFirst(s, pid, [0], kind, 0) == [];
      assert SelectFirst(s, pid, [0], kind, 1) == [];
    }
    var list := [0];
    var allowed := set k | 0 <= k < |list| :: list[k];
    assert list[0] == 0 && list[0] in allowed;
    assert forall c :: c in allowed ==> c == 0;
    assert allowed == {0};
    hide Select, SelectFirst;
  }

  lemma SingleRequest(s: State, pid: Pid)
    requires Single(s, Cpu(NOBODY, NOBODY, CpuState.Disabled, []), true)
    ensures var t := C.Happen(s, C.Lewi(pid, C.AcquireCpu(0)));
      Single(t, Cpu(NOBODY, NOBODY, CpuState.Disabled, [pid]), true) && t.petitions == s.petitions
  {
    assert [] + [pid] == [pid];
  }

  lemma SingleLimit(s: State, pid: Pid)
    requires |s.cpus| == 1 && Single(s, s.cpus[0], s.queues) && s.cpus[0].owner == pid
    ensures UpdateMax(s, pid, 0).cpus == LendCpu(s, pid, 0).cpus
  {
    hide LendCpu;
    var t := DisableLent(s, pid, 0);
    assert LendOwned(t, pid, 0, 1, 1, []) == Owned(t, 1, []);
  }

  /** Asynchronous mode: 1 asks for one CPU more than its own while all are busy; the limit of no CPUs then lends
      its CPU, and its own petition gives the CPU back to it. */
  lemma OwnPetitionBreaksLimit()
    ensures var s := C.History(Start([0], false, true),
        [C.EnableQueues(1), C.Register(1, NOBODY, {0}, false), C.Lewi(1, C.AcquireNcpus(true, 1, [0]))]);
      |s.cpus| == 1 && UpdateMax(s, 1, 0).cpus[0].guest == 1
  {
    var s0 := Start([0], false, true).(queues := true);
    var e1, e2 := C.Register(1, NOBODY, {0}, false), C.Lewi(1, C.AcquireNcpus(true, 1, [0]));
    hide C.Happen, C.History, UpdateMax;
    SingleRegister(s0, 1, []);
    var s1 := C.Happen(s0, e1);
    SinglePetition(s1, 1);
    var s := C.Happen(s1, e2);
    assert C.History(Start([0], false, true), [C.EnableQueues(1), e1, e2]) == s by {
      assert [C.EnableQueues(1), e1, e2] == [C.EnableQueues(1)] + ([e1] + ([e2] + []));
      QueuesFirst([e1] + ([e2] + []));
      NextEvent(s0, e1, [e2] + []);
      NextEvent(s1, e2, []);
      Nothing(s);
    }
    SingleLimit(s, 1);
    var s2 := Put(s, 0, LetGo(s.cpus[0], 1, true));
    assert FirstPetition(s2, 0, 0) == 0;
    hide FillCore;
    FillCoreRole(Refill(s2, 0), 0, 0, 0);
  }

  /** Asynchronous mode: 1 requests a CPU before it registers it. A limit of no CPUs, and a public deregistration,
      both lend the CPU, and the old request gives it back to 1. */
  lemma OwnRequestBreaksLeaving()
    ensures var s := C.History(Start([0], false, true),
        [C.EnableQueues(1), C.Lewi(1, C.AcquireCpu(0)), C.Register(1, NOBODY, {0}, false)]);
      |s.cpus| == 1 && UpdateMax(s, 1, 0).cpus[0].guest == 1 && Deregister(s, 1, true).cpus[0].guest == 1
  {
    var s0 := Start([0], false, true).(queues := true);
    var e1, e2 := C.Lewi(1, C.AcquireCpu(0)), C.Register(1, NOBODY, {0}, false);
    hide C.Happen, C.History, UpdateMax, Deregister;
    SingleRequest(s0, 1);
    var s1 := C.Happen(s0, e1);
    SingleRegister(s1, 1, [1]);
    var s := C.Happen(s1, e2);
    assert C.History(Start([0], false, true), [C.EnableQueues(1), e1, e2]) == s by {
      assert [C.EnableQueues(1), e1, e2] == [C.EnableQueues(1)] + ([e1] + ([e2] + []));
      QueuesFirst([e1] + ([e2] + []));
      NextEvent(s0, e1, [e2] + []);
      NextEvent(s1, e2, []);
      Nothing(s);
    }
    SingleLimit(s, 1);
    LendOwnComesBack(s, 1, 0);
    DeregisterOwnRequest(s, 1, true, 0);
  }

  /** 1 lends CPU 0, 2 borrows it and then leaves by the direct route: the CPU is idle and still marked as
      occupied. */
  lemma ForgetBreaksIndex()
    ensures var s := C.History(Start([0], false, true),
        [C.Register(1, NOBODY, {0}, false), C.Lewi(1, C.LendCpu(0)), C.Lewi(2, C.BorrowCpu(0))]);
      && IndexExact(s) && s.cpus == [Cpu(1, 2, Lent, [])]
      && !IndexExact(ForgetProcess(s, 2, true))
  {
    var s0 := Start([0], false, true);
    var e1, e2, e3 := C.Register(1, NOBODY, {0}, false), C.Lewi(1, C.LendCpu(0)), C.Lewi(2, C.BorrowCpu(0));
    StartIsIndexed([0], true);
    hide C.Happen, IndexExact, ForgetProcess;
    SingleRegister(s0, 1, []);
    var s1 := C.Happen(s0, e1);
    SingleLend(s1, 1);
    var s2 := C.Happen(s1, e2);
    SingleBorrow(s2, 2, 1);
    var s := C.Happen(s2, e3);
    EventKeepsIndex(s0, e1);
    EventKeepsIndex(s1, e2);
    EventKeepsIndex(s2, e3);
    hide C.History;
    assert C.History(s0, [e1, e2, e3]) == s by {
      assert [e1, e2, e3] == [e1] + ([e2] + ([e3] + []));
      NextEvent(s0, e1, [e2] + ([e3] + []));
      NextEvent(s1, e2, [e3] + []);
      NextEvent(s2, e3, []);
      Nothing(s);
    }
    ForgetProcessIndexed(s, 2, true);
    assert !BorrowsNothing(s, 2) by { assert s.cpus[0].guest == 2; }
  }

  lemma SingleLendBack(s: State, pid: Pid)
    requires Single(s, Cpu(pid, pid, Busy, [pid]), true) && 0 !in s.free
    ensures var t := C.Happen(s, C.Lewi(pid, C.LendCpu(0)));
      Single(t, Cpu(pid, pid, Lent, []), true) && 0 !in t.free
  {
    var s2 := Put(s, 0, LetGo(s.cpus[0], pid, true));
    assert FirstRequest(s2, 0, 0) == 0;
    var q := s2.cpus[0].requests;
    assert q[..0] + q[1..] == [];
    hide UpdatedOccupied;
    var t := Refill(s2, 0);
    assert t.cpus == [Cpu(pid, pid, Lent, [])];
    assert FillCore(t, 0, 1) == t;
    assert FillCore(t, 0, 0) == t;
  }

  /** Asynchronous mode: 1 requests a CPU before it registers and lends it, so that it gets it back as a lent CPU.
      Reclaiming the mask {0} passes over it; reclaiming CPU 0 does not. */
  lemma ReclaimMaskSkips()
    ensures var s := C.History(Start([0], false, true),
        [C.EnableQueues(1), C.Lewi(1, C.AcquireCpu(0)), C.Register(1, NOBODY, {0}, false), C.Lewi(1, C.LendCpu(0))]);
      && IndexExact(s) && s.cpus == [Cpu(1, 1, Lent, [])]
      && ReclaimMask(s, 1, {0}).0 != ReclaimEach(s, 1, {0}, NoUpdt, 0).0
  {
    var s0 := Start([0], false, true).(queues := true);
    var e1, e2, e3 := C.Lewi(1, C.AcquireCpu(0)), C.Register(1, NOBODY, {0}, false), C.Lewi(1, C.LendCpu(0));
    C.StartIsFree([0], false, true);
    assert IndexExact(s0) && IdleAreFree(s0);
    hide C.Happen, IndexExact, IdleAreFree, ReclaimMask, ReclaimEach;
    SingleRequest(s0, 1);
    var s1 := C.Happen(s0, e1);
    SingleRegister(s1, 1, [1]);
    var s2 := C.Happen(s1, e2);
    SingleLendBack(s2, 1);
    var s := C.Happen(s2, e3);
    EventKeepsIndex(s0, e1);
    EventKeepsIndex(s1, e2);
    EventKeepsIndex(s2, e3);
    C.EventKeepsFree(s0, e1);
    C.EventKeepsFree(s1, e2);
    C.EventKeepsFree(s2, e3);
    hide C.History;
    assert C.History(Start([0], false, true), [C.EnableQueues(1), e1, e2, e3]) == s by {
      assert [C.EnableQueues(1), e1, e2, e3] == [C.EnableQueues(1)] + ([e1] + ([e2] + ([e3] + [])));
      QueuesFirst([e1] + ([e2] + ([e3] + [])));
      NextEvent(s0, e1, [e2] + ([e3] + []));
      NextEvent(s1, e2, [e3] + []);
      NextEvent(s2, e3, []);
      Nothing(s);
    }
    ReclaimMaskIsScan(s, 1, {0});
    assert !OwnAreBusy(s, 1, {0}) by { assert s.cpus[0].guest == 1; }
  }

  lemma SelectOfThree(s: State, pid: Pid, a: nat, b: nat, c: nat, kind: Kind)
    requires a < |s.cpus| && b < |s.cpus| && c < |s.cpus| && InTable(s, [a, b, c])
    ensures Select(s, pid, [a, b, c], kind) ==
      (if OfKind(s.cpus[a], pid, kind) then [a] else []) + (if OfKind(s.cpus[b], pid, kind) then [b] else []) +
      (if OfKind(s.cpus[c], pid, kind) then [c] else [])
  {
    var list := [a, b, c];
    assert SelectFirst(s, pid, list, kind, 0) == [];
    var one, two := SelectFirst(s, pid, list, kind, 1), SelectFirst(s, pid, list, kind, 2);
    assert one == if OfKind(s.cpus[a], pid, kind) then [a] else [];
    assert two == if OfKind(s.cpus[b], pid, kind) then one + [b] else one;
  }

  /** A node with two CPUs in core 0 and one in core 1, where nothing is occupied, queued or reported. */
  function ThreeCpus(a: Cpu, b: Cpu, c: Cpu, free: set<nat>): (s: State)
    ensures s.core == [0, 0, 1] && s.smt && !s.queues && s.cpus == [a, b, c]
  {
    State([0, 0, 1], true, false, [a, b, c], free, {}, [], [])
  }

  /** 1 shares core 0 with 2, which is using its CPU, and 3 has lent the other core. */
  function SharedCore(): (s: State)
    ensures s.core == [0, 0, 1] && s.smt && !s.queues && |s.cpus| == 3
  {
    ThreeCpus(Cpu(2, 2, Busy, []), Cpu(1, NOBODY, Lent, []), Cpu(3, NOBODY, Lent, []), {1, 2})
  }

  lemma RegisterOne(s: State, pid: Pid, c: nat)
    requires |s.core| == |s.cpus| == 3 && c < 3 && s.cpus[c].owner == NOBODY
    ensures C.Happen(s, C.Register(pid, NOBODY, {c}, false)) == RegisterCpu(s, pid, NOBODY, c)
  {
    assert Registrable(s, pid, NOBODY, {c});
    hide RegisterCpu;
    var t := RegisterCpu(s, pid, NOBODY, c);
    assert RegisterMask(t, pid, NOBODY, {c}, 3) == t;
    assert c < 2 ==> RegisterMask(t, pid, NOBODY, {c}, 2) == t;
    assert c < 1 ==> RegisterMask(t, pid, NOBODY, {c}, 1) == t;
    assert c == 2 ==> RegisterMask(s, pid, NOBODY, {c}, 2) == t;
    assert c == 1 ==> RegisterMask(s, pid, NOBODY, {c}, 1) == t;
    assert c == 2 ==> RegisterMask(s, pid, NOBODY, {c}, 1) == t;
  }

  lemma ThreeRegister()
    ensures var s := C.Happen(Start([0, 0, 1], true, true), C.Register(2, NOBODY, {0}, false));
      var t := C.Happen(s, C.Register(1, NOBODY, {1}, false));
      var u := C.Happen(t, C.Register(3, NOBODY, {2}, false));
      u == ThreeCpus(Cpu(2, 2, Busy, []), Cpu(1, 1, Busy, []), Cpu(3, 3, Busy, []), {})
  {
    var off := Cpu(NOBODY, NOBODY, CpuState.Disabled, []);
    var a, b, c := Cpu(2, 2, Busy, []), Cpu(1, 1, Busy, []), Cpu(3, 3, Busy, []);
    var s0 := Start([0, 0, 1], true, true);
    assert s0 == ThreeCpus(off, off, off, {});
    RegisterOne(s0, 2, 0);
    var s1 := RegisterCpu(s0, 2, NOBODY, 0);
    assert s1 == ThreeCpus(a, off, off, {});
    RegisterOne(s1, 1, 1);
    var s2 := RegisterCpu(s1, 1, NOBODY, 1);
    assert s2 == ThreeCpus(a, b, off, {});
    RegisterOne(s2, 3, 2);
    var s3 := RegisterCpu(s2, 3, NOBODY, 2);
    assert s3 == ThreeCpus(a, b, c, {});
    hide C.Happen;
  }

  lemma OneLends()
    ensures C.Happen(ThreeCpus(Cpu(2, 2, Busy, []), Cpu(1, 1, Busy, []), Cpu(3, 3, Busy, []), {}), C.Lewi(1, C.LendCpu(1))) ==
      ThreeCpus(Cpu(2, 2, Busy, []), Cpu(1, NOBODY, Lent, []), Cpu(3, 3, Busy, []), {1})
  {
    var s := ThreeCpus(Cpu(2, 2, Busy, []), Cpu(1, 1, Busy, []), Cpu(3, 3, Busy, []), {});
    var t := LendCpu(s, 1, 1);
    assert t == ThreeCpus(Cpu(2, 2, Busy, []), Cpu(1, NOBODY, Lent, []), Cpu(3, 3, Busy, []), {1});
  }

  lemma ThreeLends()
    ensures C.Happen(ThreeCpus(Cpu(2, 2, Busy, []), Cpu(1, NOBODY, Lent, []), Cpu(3, 3, Busy, []), {1}), C.Lewi(3, C.LendCpu(2))) ==
      SharedCore()
  {
    var s := ThreeCpus(Cpu(2, 2, Busy, []), Cpu(1, NOBODY, Lent, []), Cpu(3, 3, Busy, []), {1});
    var t := LendCpu(s, 3, 2);
    assert {1} + {2} == {1, 2};
    assert t == SharedCore();
  }

  /** 2, 1 and 3 register one CPU each, and 1 and 3 lend theirs. */
  function SharedCoreRun(): seq<C.Event> {
    [C.Register(2, NOBODY, {0}, false), C.Register(1, NOBODY, {1}, false), C.Register(3, NOBODY, {2}, false),
     C.Lewi(1, C.LendCpu(1)), C.Lewi(3, C.LendCpu(2))]
  }

  lemma SharedCoreIsReached()
    ensures C.History(Start([0, 0, 1], true, true), SharedCoreRun()) == SharedCore()
  {
    ThreeRegister();
    OneLends();
    ThreeLends();
    hide C.Happen, C.History, SharedCore, ThreeCpus, Start;
    var s0 := Start([0, 0, 1], true, true);
    var a, b, c := C.Register(2, NOBODY, {0}, false), C.Register(1, NOBODY, {1}, false), C.Register(3, NOBODY, {2}, false);
    var d, e := C.Lewi(1, C.LendCpu(1)), C.Lewi(3, C.LendCpu(2));
    assert |s0.core| == |s0.cpus| by { C.StartIsFree([0, 0, 1], true, true); C.SameLengths(s0); }
    var s1 := C.Happen(s0, a);
    var s2 := C.Happen(s1, b);
    var s3 := C.Happen(s2, c);
    var s4 := C.Happen(s3, d);
    NextEvent(s0, a, [b] + ([c] + ([d] + ([e] + []))));
    NextEvent(s1, b, [c] + ([d] + ([e] + [])));
    NextEvent(s2, c, [d] + ([e] + []));
    NextEvent(s3, d, [e] + []);
    NextEvent(s4, e, []);
    Nothing(C.Happen(s4, e));
    assert SharedCoreRun() == [a] + ([b] + ([c] + ([d] + ([e] + []))));
  }

  lemma AcquiringStops()
    ensures var s := SharedCore();
      TakeArray(s, 1, Acquiring, [1], 0, 2, -1, NoUpdt) == Batch(s, NoUpdt, 2)
      && TakeArray(s, 1, Acquiring, [], 0, 2, -1, NoUpdt) == Batch(s, NoUpdt, 2)
  {
    var s := SharedCore();
    hide UpdatedOccupied, CoreIsEligible;
    assert AcquireCpu(s, 1, 0) == (s, NoUpdt);
    assert TakeCore(s, 1, Acquiring, 0, 0, NoUpdt, 0) == Batch(s, NoUpdt, 0);
    hide TakeCore;
    assert TakeArray(s, 1, Acquiring, [1], 0, 2, -1, NoUpdt) == TakeArray(s, 1, Acquiring, [1], 1, 2, 0, NoUpdt);
  }

  lemma BorrowingGoesOn()
    ensures var s := SharedCore();
      TakeArray(s, 1, Borrowing, [2], 0, 2, -1, NoUpdt).state.cpus == s.cpus[2 := Cpu(3, 1, Lent, [])]
  {
    var s := SharedCore();
    assert CoreIsEligible(s, 1, 2);
    var t := BorrowCpu(s, 1, 2).0;
    assert BorrowCpu(s, 1, 2).1 == Success && t.cpus == s.cpus[2 := Cpu(3, 1, Lent, [])];
    hide BorrowCpu, CoreIsEligible, UpdatedOccupied;
    assert TakeCore(t, 1, Borrowing, 1, 3, Success, 1) == Batch(t, Success, 1);
    assert TakeCore(s, 1, Borrowing, 1, 2, NoUpdt, 0) == Batch(t, Success, 1);
    assert TakeCore(s, 1, Borrowing, 1, 1, NoUpdt, 0) == Batch(t, Success, 1);
    assert TakeCore(s, 1, Borrowing, 1, 0, NoUpdt, 0) == Batch(t, Success, 1);
    hide TakeCore;
    assert TakeArray(s, 1, Borrowing, [2], 0, 2, -1, NoUpdt) == TakeArray(t, 1, Borrowing, [2], 1, 1, 1, Success);
  }

  /** With SMT and a core of two owners, acquiring stops at the CPU of 2, and 1 borrows CPU 2 while its own CPU 1
      stays lent. */
  lemma SharedCoreBorrowsFirst()
    ensures C.History(Start([0, 0, 1], true, true), SharedCoreRun()) == SharedCore()
    ensures var t := AcquireNcpus(SharedCore(), 1, true, 2, [0, 1, 2]).0;
      t.cpus[1] == Cpu(1, NOBODY, Lent, []) && t.cpus[2] == Cpu(3, 1, Lent, [])
  {
    SharedCoreIsReached();
    var s := SharedCore();
    hide C.History, SharedCoreRun;
    SharedCoreKinds();
    AcquiringStops();
    BorrowingGoesOn();
    hide Select, TakeArray, SharedCore, Posted, AskEach;
    assert AcquireNcpus(s, 1, true, 2, [0, 1, 2]).0.cpus == s.cpus[2 := Cpu(3, 1, Lent, [])];
    assert s.cpus[1] == Cpu(1, NOBODY, Lent, []) by { SharedCoreCpus(); }
  }

  lemma SharedCoreCpus()
    ensures SharedCore().cpus[1] == Cpu(1, NOBODY, Lent, [])
  {
  }

  lemma SharedCoreKinds()
    ensures var s := SharedCore();
      Select(s, 1, [0, 1, 2], OwnedIdle) == [1] && Select(s, 1, [0, 1, 2], OwnedInUse) == [] &&
      Select(s, 1, [0, 1, 2], NotOwned) == [2]
  {
    var s := SharedCore();
    SelectOfThree(s, 1, 0, 1, 2, OwnedIdle);
    SelectOfThree(s, 1, 0, 1, 2, OwnedInUse);
    SelectOfThree(s, 1, 0, 1, 2, NotOwned);
    hide Select;
  }
}
