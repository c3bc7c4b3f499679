/** Runs of asynchronous LeWI that end where an operation does not do what it promises. Each is the input that shows an
    exact condition of LewiAsyncRuns or LewiAsyncReplies to be needed (src/LB_comm/shmem_lewi_async.c). The output
    arrays have room for one process. */
module LewiAsyncWitnesses {
  import opened Codes
  import opened LewiQueue
  import opened LewiPop
  import opened LewiAsyncSpec
  import opened LewiAsyncRuns
  import opened LewiAsyncReplies

  lemma RunStep(s: Shared, step: Step, rest: seq<Step>)
    ensures Run(s, [step] + rest) == Run(Apply(s, step), rest)
  {
    hide Apply;
    assert ([step] + rest)[1..] == rest;
  }

  lemma RunNone(s: Shared)
    ensures Run(s, []) == s
  {
  }

  /** Three processes that brought i, j and k CPUs and use a, b and c. */
  function Trio(i: nat, a: nat, j: nat, b: nat, k: nat, c: nat, idle: nat, reqs: seq<Request>): Shared {
    Shared(idle, 3, reqs, 3, [Process(1, i, a), Process(2, j, b), Process(3, k, c)])
  }

  lemma TrioSlots(s: Shared)
    requires |s.procs| == 3 && s.procs[0].pid == 1 && s.procs[1].pid == 2 && s.procs[2].pid == 3
    ensures Slot(s.procs, 1) == 0 && Slot(s.procs, 2) == 1 && Slot(s.procs, 3) == 2
  {
    var two, three := Slot(s.procs, 2), Slot(s.procs, 3);
    assert Slot(s.procs, 1) == 0;
    assert two == 1;
    assert three == 2;
  }

  lemma TrioSums(i: nat, a: nat, j: nat, b: nat, k: nat, c: nat)
    ensures var procs := Trio(i, a, j, b, k, c, 0, []).procs;
      CurrentSum(procs) == a + b + c && InitialSum(procs) == i + j + k && Occupied(procs) == 3
  {
    var free := [FREE_SLOT, FREE_SLOT, FREE_SLOT];
    FreshSums(free);
    var one := free[0 := Process(1, i, a)];
    var two := one[1 := Process(2, j, b)];
    SetSums(free, 0, Process(1, i, a));
    SetSums(one, 1, Process(2, j, b));
    SetSums(two, 2, Process(3, k, c));
    assert two[2 := Process(3, k, c)] == Trio(i, a, j, b, k, c, 0, []).procs;
  }

  lemma TrioIsValid(i: nat, a: nat, j: nat, b: nat, k: nat, c: nat, idle: nat, reqs: seq<Request>)
    requires Packed(reqs) && Pids(reqs) <= {1, 2, 3}
    ensures var s := Trio(i, a, j, b, k, c, idle, reqs);
      && Valid(s) && (Conserved(s) <==> idle + a + b + c == i + j + k)
      && Registered(s.procs, 1) && Registered(s.procs, 2) && Registered(s.procs, 3)
  {
    var s := Trio(i, a, j, b, k, c, idle, reqs);
    TrioSums(i, a, j, b, k, c);
    TrioSlots(s);
    forall q | 0 <= q < |reqs| ensures reqs[q].pid != NOBODY && Registered(s.procs, reqs[q].pid) {
      assert reqs[q].pid in Pids(reqs);
    }
    hide CurrentSum, InitialSum, Occupied, Slot;
  }

  lemma Attaches(s: Shared, pid: nat, ncpus: nat, i: nat)
    requires i < |s.procs| && s.procs[i].pid == NOBODY && (forall k :: 0 <= k < i ==> s.procs[k].pid != NOBODY)
    requires s.head == i && (s.attached == 0 ==> s.idle == 0 && s.reqs == [])
    ensures Apply(s, DoInit(pid, ncpus, true)) ==
      s.(attached := s.attached + 1, head := i + 1, procs := s.procs[i := Process(pid, ncpus, ncpus)])
  {
    var k := Slot(s.procs, NOBODY);
    assert s.procs[i].pid == NOBODY && k == i;
  }

  /** The table once three processes have attached. */
  lemma ThreeAttach(i: nat, j: nat, k: nat, rest: seq<Step>)
    ensures Run(Start(3), [DoInit(1, i, true), DoInit(2, j, true), DoInit(3, k, true)] + rest) == Run(Trio(i, i, j, j, k, k, 0, []), rest)
  {
    var a, b, c := DoInit(1, i, true), DoInit(2, j, true), DoInit(3, k, true);
    var s0 := Start(3);
    assert s0.procs == [FREE_SLOT, FREE_SLOT, FREE_SLOT];
    Attaches(s0, 1, i, 0);
    var s1 := Apply(s0, a);
    assert s1.procs == [Process(1, i, i), FREE_SLOT, FREE_SLOT];
    Attaches(s1, 2, j, 1);
    var s2 := Apply(s1, b);
    assert s2.procs == [Process(1, i, i), Process(2, j, j), FREE_SLOT];
    Attaches(s2, 3, k, 2);
    var s3 := Apply(s2, c);
    assert s3 == Trio(i, i, j, j, k, k, 0, []);
    hide Apply, Run;
    assert [a, b, c] + rest == [a] + ([b] + ([c] + rest));
    RunStep(s0, a, [b] + ([c] + rest));
    RunStep(s1, b, [c] + rest);
    RunStep(s2, c, rest);
  }

  /** Three processes attach and three steps follow. */
  lemma ThreeThenThree(i: nat, j: nat, k: nat, a: Step, b: Step, c: Step, rest: seq<Step>)
    ensures Run(Start(3), [DoInit(1, i, true), DoInit(2, j, true), DoInit(3, k, true), a, b, c] + rest) ==
      Run(Apply(Apply(Apply(Trio(i, i, j, j, k, k, 0, []), a), b), c), rest)
  {
    hide Apply, Run;
    var s3 := Trio(i, i, j, j, k, k, 0, []);
    var s4 := Apply(s3, a);
    var s5 := Apply(s4, b);
    ThreeAttach(i, j, k, [a] + ([b] + ([c] + rest)));
    RunStep(s3, a, [b] + ([c] + rest));
    RunStep(s4, b, [c] + rest);
    RunStep(s5, c, rest);
    var start := [DoInit(1, i, true), DoInit(2, j, true), DoInit(3, k, true)];
    assert start + [a, b, c] + rest == start + ([a] + ([b] + ([c] + rest)));
    assert start + [a, b, c] == [DoInit(1, i, true), DoInit(2, j, true), DoInit(3, k, true), a, b, c];
  }

  lemma OneLends()
    ensures Apply(Trio(2, 2, 1, 1, 1, 1, 0, []), DoLend(1, 2, 1)) == Trio(2, 0, 1, 1, 1, 1, 2, [])
  {
    TrioSlots(Trio(2, 2, 1, 1, 1, 1, 0, []));
    hide Slot;
  }

  lemma TwoAndThreeBorrow()
    ensures Apply(Trio(2, 0, 1, 1, 1, 1, 2, []), DoBorrow(2, 1)) == Trio(2, 0, 1, 2, 1, 1, 1, [])
    ensures Apply(Trio(2, 0, 1, 2, 1, 1, 1, []), DoBorrow(3, 1)) == Trio(2, 0, 1, 2, 1, 2, 0, [])
  {
    TrioSlots(Trio(2, 0, 1, 1, 1, 1, 2, []));
    TrioSlots(Trio(2, 0, 1, 2, 1, 1, 1, []));
    hide Slot;
  }

  /** 1 lends its two CPUs, and 2 and 3 borrow one each. */
  lemma TwoVictims(rest: seq<Step>)
    ensures Run(Start(3), [DoInit(1, 2, true), DoInit(2, 1, true), DoInit(3, 1, true), DoLend(1, 2, 1), DoBorrow(2, 1),
        DoBorrow(3, 1)] + rest) == Run(Trio(2, 0, 1, 2, 1, 2, 0, []), rest)
  {
    hide Apply, Run, Trio, Start;
    OneLends();
    TwoAndThreeBorrow();
    ThreeThenThree(2, 1, 1, DoLend(1, 2, 1), DoBorrow(2, 1), DoBorrow(3, 1), rest);
  }

  lemma TwoVictimsTable()
    ensures var s := Trio(2, 0, 1, 2, 1, 2, 0, []);
      && Valid(s) && Conserved(s) && AllBrought(s.procs) && Registered(s.procs, 1) && Slot(s.procs, 1) == 0
      && SurplusCount(s.procs, 3) == 2
  {
    var s := Trio(2, 0, 1, 2, 1, 2, 0, []);
    TrioSlots(s);
    TrioIsValid(2, 0, 1, 2, 1, 2, 0, []);
    hide Valid, Conserved, Slot;
    assert SurplusCount(s.procs, 1) == 0 && SurplusCount(s.procs, 2) == 1;
  }

  /** Then 1 leaves: its CPUs stay with 2 and 3, and the books no longer balance. */
  lemma FinalizeLosesCpus()
    ensures var s := Run(Start(3), [DoInit(1, 2, true), DoInit(2, 1, true), DoInit(3, 1, true), DoLend(1, 2, 1),
        DoBorrow(2, 1), DoBorrow(3, 1)]);
      s == Trio(2, 0, 1, 2, 1, 2, 0, []) && Conserved(s) && !Conserved(Finalize(s, 1, 1).0)
  {
    var start := [DoInit(1, 2, true), DoInit(2, 1, true), DoInit(3, 1, true), DoLend(1, 2, 1), DoBorrow(2, 1), DoBorrow(3, 1)];
    TwoVictims([]);
    TwoVictimsTable();
    var s := Trio(2, 0, 1, 2, 1, 2, 0, []);
    RunNone(s);
    assert start + [] == start;
    hide Finalize, Run;
    FinalizeConserves(s, 1, 1);
  }

  /** Or 1 asks for two CPUs: nothing moves, and the policy tells one of the others to go on with the one CPU that it
      would have lost, while it has two. */
  lemma AcquireMisinforms()
    ensures var s := Run(Start(3), [DoInit(1, 2, true), DoInit(2, 1, true), DoInit(3, 1, true), DoLend(1, 2, 1),
        DoBorrow(2, 1), DoBorrow(3, 1)]);
      var step := DoAcquire(1, 2, 1);
      s == Trio(2, 0, 1, 2, 1, 2, 0, []) && Apply(s, step).procs == s.procs && !Stored(s.procs, Sent(s, step))
  {
    var start := [DoInit(1, 2, true), DoInit(2, 1, true), DoInit(3, 1, true), DoLend(1, 2, 1), DoBorrow(2, 1), DoBorrow(3, 1)];
    TwoVictims([]);
    TwoVictimsTable();
    var s := Trio(2, 0, 1, 2, 1, 2, 0, []);
    RunNone(s);
    assert start + [] == start;
    hide Run;
    NothingBorrowed(s);
    TwoFails(s);
    hide Trio, BorrowIdle, ReclaimFrom, Collectable, SurplusCount, Slot, Apply, Sent, SendFits, Stored, Valid, Conserved,
      AllBrought;
    FailedAcquire(s);
    SentAreStored(s, DoAcquire(1, 2, 1));
  }

  lemma NothingBorrowed(s: Shared)
    requires s == Trio(2, 0, 1, 2, 1, 2, 0, [])
    ensures BorrowIdle(s, 0, 2) == s && s.idle == 0 && |s.procs| == 3 && s.procs[0] == Process(1, 2, 0)
  {
    assert s.procs[0 := s.procs[0]] == s.procs;
  }

  lemma FailedAcquire(s: Shared)
    requires Slot(s.procs, 1) == 0 && |s.procs| == 3 && s.procs[0] == Process(1, 2, 0) && s.idle == 0
    requires BorrowIdle(s, 0, 2) == s && ReclaimFrom(s, 0, 2, 1).0 == s && !Collectable(s, 2, 1)
    ensures Apply(s, DoAcquire(1, 2, 1)).procs == s.procs && !SendFits(s, DoAcquire(1, 2, 1))
  {
    hide BorrowIdle, AcquireCpus, ReclaimFrom, Slot, Collectable, CurrentOf;
    AcquireShape(s, 1, 2, 1);
  }

  lemma TwoFails(s: Shared)
    requires s == Trio(2, 0, 1, 2, 1, 2, 0, []) && Valid(s) && Conserved(s) && SurplusCount(s.procs, 3) == 2
    ensures ReclaimFrom(s, 0, 2, 1).0 == s && !Collectable(s, 2, 1)
  {
    hide ReclaimFrom, Valid, Conserved, SurplusCount, ListedSurplus;
    ReclaimSucceeds(s, 0, 2, 1);
    ReclaimedCaller(s, 0, 2, 1);
  }

  /** Two requests and two CPUs, but room to name one process: the smaller request is served. */
  lemma PopForOne()
    ensures Pop([Request(1, 2), Request(3, 1)], 2, 1) == Popped([Request(1, 2)], [Request(3, 1)], 1)
  {
    var x, y := Request(1, 2), Request(3, 1);
    var q := [x, y];
    assert q[..1] == [x] && [x][..0] == [];
    assert Sorted([x]) == [x] by { assert Insert([], x) == [] + [x]; }
    assert Sorted(q) == q by { assert Insert([x], y) == [x] + [y]; }
    assert Quotient(2, 2) == 1 by { assert Quotient(0, 2) == 0; }
    var left := [x, Request(3, 0)];
    assert Reduced(q, 1, 1) == left;
    assert Serve(q, 2, 2, 1, []) == Popped(left, [y], 1);
    assert left[..1] == [x];
    assert Pack([x]) == [x] by { assert Pack([]) + [x] == [x]; }
    assert Pack(left) == Pack([x]);
  }

  lemma GrantToThree(procs: seq<Process>)
    requires |procs| == 3 && procs[0].pid == 1 && procs[1].pid == 2 && procs[2].pid == 3
    ensures Grant(procs, [Request(3, 1)]) == procs[2 := procs[2].(current := procs[2].current + 1)]
  {
    forall pid ensures Amount([Request(3, 1)], pid) == if pid == 3 then 1 else 0 {
      AmountSingle(Request(3, 1), pid);
    }
    hide Amount;
  }

  lemma PairIsPacked()
    ensures var q := [Request(1, 2), Request(3, 1)]; Packed(q) && Pids(q) == {1, 3} && Remove(q, 2) == q
    ensures var q := [Request(1, 2)]; Packed(q) && Pids(q) == {1}
  {
    var q, one := [Request(1, 2), Request(3, 1)], [Request(1, 2)];
    assert q[0].pid == 1 && q[1].pid == 3 && one[0].pid == 1;
    assert IndexOf(q, 2) == 2;
  }

  lemma OneAsks()
    ensures Apply(Trio(1, 1, 2, 2, 1, 1, 0, []), DoAcquire(1, 2, 1)) == Trio(1, 1, 2, 2, 1, 1, 0, [Request(1, 2)])
  {
    var s := Trio(1, 1, 2, 2, 1, 1, 0, []);
    TrioSlots(s);
    hide Slot;
    assert s.procs[0 := s.procs[0]] == s.procs;
    assert [] + [Request(1, 2)] == [Request(1, 2)];
  }

  lemma ThreeAsks()
    ensures Apply(Trio(1, 1, 2, 2, 1, 1, 0, [Request(1, 2)]), DoAcquire(3, 1, 1)) ==
      Trio(1, 1, 2, 2, 1, 1, 0, [Request(1, 2), Request(3, 1)])
  {
    var s := Trio(1, 1, 2, 2, 1, 1, 0, [Request(1, 2)]);
    TrioSlots(s);
    hide Slot;
    assert s.procs[2 := s.procs[2]] == s.procs;
    assert s.reqs[0].pid == 1 && IndexOf(s.reqs, 3) == 1;
    assert s.reqs + [Request(3, 1)] == [Request(1, 2), Request(3, 1)];
  }

  /** 1 and 3 ask for more CPUs, and 2 lends two, with room to serve only one of them: a CPU stays idle beside the
      request of 1. */
  lemma IdleBesidePending(rest: seq<Step>)
    ensures Run(Start(3), [DoInit(1, 1, true), DoInit(2, 2, true), DoInit(3, 1, true), DoAcquire(1, 2, 1),
        DoAcquire(3, 1, 1), DoLend(2, 2, 1)] + rest) == Run(Trio(1, 1, 2, 0, 1, 2, 1, [Request(1, 2)]), rest)
  {
    OneAsks();
    ThreeAsks();
    LendToOne();
    ThreeThenThree(1, 2, 1, DoAcquire(1, 2, 1), DoAcquire(3, 1, 1), DoLend(2, 2, 1), rest);
    hide Apply, Run;
  }

  lemma LendToOne()
    ensures Apply(Trio(1, 1, 2, 2, 1, 1, 0, [Request(1, 2), Request(3, 1)]), DoLend(2, 2, 1)) ==
      Trio(1, 1, 2, 0, 1, 2, 1, [Request(1, 2)])
  {
    var s := Trio(1, 1, 2, 2, 1, 1, 0, [Request(1, 2), Request(3, 1)]);
    TrioSlots(s);
    PairIsPacked();
    PopForOne();
    GrantToThree(s.procs[1 := Process(2, 2, 0)]);
    hide Pop, Grant, Remove, Slot, Amount, Packed, Pids;
  }

  /** When 1 then lends its CPU and reclaims it, it comes back with the idle one as well. */
  lemma LendThenReclaimGains()
    ensures var s := Run(Start(3), [DoInit(1, 1, true), DoInit(2, 2, true), DoInit(3, 1, true), DoAcquire(1, 2, 1),
        DoAcquire(3, 1, 1), DoLend(2, 2, 1)]);
      var (t, r) := LendKeepCpus(s, 1, 0, 1);
      s == Trio(1, 1, 2, 0, 1, 2, 1, [Request(1, 2)]) && Reclaim(t, 1, 1, r.prev).0 != s
  {
    var start := [DoInit(1, 1, true), DoInit(2, 2, true), DoInit(3, 1, true), DoAcquire(1, 2, 1), DoAcquire(3, 1, 1), DoLend(2, 2, 1)];
    var s := Trio(1, 1, 2, 0, 1, 2, 1, [Request(1, 2)]);
    IdleBesidePending([]);
    RunNone(s);
    assert start + [] == start;
    PairIsPacked();
    TrioIsValid(1, 1, 2, 0, 1, 2, 1, [Request(1, 2)]);
    TrioSlots(s);
    hide Run, Apply, LendKeepCpus, Reclaim, Valid;
    LendThenReclaim(s, 1, 0, 1, 1);
  }
}
