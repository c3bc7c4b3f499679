/** What the tasks of a call mean: whom they start and stop, and that processes which follow theirs use exactly the
    CPUs that the table gives them (src/LB_comm/shmem_cpuinfo.c). */
module CpuinfoTasks {
  import opened Codes
  import opened CpuinfoSpec
  import opened CpuinfoActs
  import opened CpuinfoOps
  import opened CpuinfoOccupied
  import opened CpuinfoEffects

  /** Who may use a CPU: the owner of a busy one, else its guest. */
  function Holder(cpu: Cpu): nat {
    if cpu.state == Busy then cpu.owner else cpu.guest
  }

  /** The tasks that t has and s has not. */
  function Added(s: State, t: State): seq<Task> {
    if s.tasks <= t.tasks then t.tasks[|s.tasks|..] else []
  }

  // ---------------------------------------------------------------- following the tasks

  datatype Use = Use(pid: nat, cpu: nat)

  /** The processes and CPUs that the table puts together. */
  function Entitled(s: State): set<Use> {
    set c | 0 <= c < |s.cpus| && Holder(s.cpus[c]) != NOBODY :: Use(Holder(s.cpus[c]), c)
  }

  /** What is in use after following the tasks. */
  function Follow(using: set<Use>, tasks: seq<Task>): set<Use>
    decreases |tasks|
  {
    if tasks == [] then using
    else Follow(FollowOne(using, tasks[0]), tasks[1..])
  }

  function FollowOne(using: set<Use>, task: Task): set<Use> {
    if task.action == Enable then using + {Use(task.pid, task.cpu)} else using - {Use(task.pid, task.cpu)}
  }

  /** What the processes learn from an operation: the caller that lends or gives back a CPU stops using it, one that
      is told it may have it starts, and the rest is in the tasks. */
  function Told(s: State, pid: Pid, act: Act): seq<Task>
    requires |s.core| == |s.cpus|
  {
    Answer(s, pid, act) + Added(s, Do(s, pid, act))
  }

  function Answer(s: State, pid: Pid, act: Act): seq<Task>
    requires |s.core| == |s.cpus|
  {
    match act
    case Lend(c) => if c < |s.cpus| && s.cpus[c].state != CpuState.Disabled then [Task(Disable, pid, c)] else []
    case ReturnAsync(c) => [Task(Disable, pid, c)]
    case Check(c) => if c < |s.cpus| && CheckCpu(s, pid, c).1 == Success then [Task(Enable, pid, c)] else []
    case _ => []
  }

  /** A busy CPU has an owner. */
  ghost predicate BusyOwned(s: State) {
    |s.core| == |s.cpus| && forall c :: 0 <= c < |s.cpus| && s.cpus[c].state == Busy ==> s.cpus[c].owner != NOBODY
  }

  // ---------------------------------------------------------------- one CPU

  lemma {:induction false} FollowConcat(using: set<Use>, a: seq<Task>, b: seq<Task>)
    ensures Follow(using, a + b) == Follow(Follow(using, a), b)
    decreases |a|
  {
    if a == [] {
      assert a + b == b;
    } else {
      assert (a + b)[1..] == a[1..] + b;
      FollowConcat(FollowOne(using, a[0]), a[1..], b);
    }
  }

  lemma {:induction false} FollowMonotone(a: set<Use>, b: set<Use>, tasks: seq<Task>)
    requires a <= b
    ensures Follow(a, tasks) <= Follow(b, tasks)
    decreases |tasks|
  {
    if tasks != [] {
      FollowMonotone(FollowOne(a, tasks[0]), FollowOne(b, tasks[0]), tasks[1..]);
    }
  }

  lemma FollowSingle(using: set<Use>, task: Task)
    ensures Follow(using, [task]) == FollowOne(using, task)
  {
    assert [task][1..] == [];
  }

  lemma FollowTwo(using: set<Use>, x: Task, y: Task)
    ensures Follow(using, [x, y]) == FollowOne(FollowOne(using, x), y)
  {
    assert [x, y] == [x] + [y];
    FollowConcat(using, [x], [y]);
    FollowSingle(using, x);
    FollowSingle(FollowOne(using, x), y);
  }

  /** Handing CPU c from one holder to another moves one use. */
  lemma EntitledMoves(s: State, t: State, c: nat)
    requires c < |s.cpus| == |t.cpus| && forall d :: 0 <= d < |s.cpus| && d != c ==> Holder(t.cpus[d]) == Holder(s.cpus[d])
    ensures Entitled(t) == Entitled(s) - {Use(Holder(s.cpus[c]), c)} + UseOf(Holder(t.cpus[c]), c)
  {
    hide Holder;
    var moved := Entitled(s) - {Use(Holder(s.cpus[c]), c)} + UseOf(Holder(t.cpus[c]), c);
    forall u ensures u in Entitled(t) <==> u in moved {
      assert u in Entitled(t) <==> u.cpu < |t.cpus| && u.pid == Holder(t.cpus[u.cpu]) && u.pid != NOBODY;
      assert u in Entitled(s) <==> u.cpu < |s.cpus| && u.pid == Holder(s.cpus[u.cpu]) && u.pid != NOBODY;
    }
  }

  function UseOf(holder: nat, c: nat): set<Use> {
    if holder == NOBODY then {} else {Use(holder, c)}
  }

  /** The tasks that say how CPU c went from holder a to holder b. */
  ghost predicate Explains(a: nat, b: nat, c: nat, tasks: seq<Task>) {
    || (tasks == [] && a == b)
    || (tasks == [Task(Enable, b, c)] && a in {NOBODY, b} && b != NOBODY)
    || (exists g :: tasks == [Task(Disable, g, c), Task(Enable, b, c)] && a in {NOBODY, g, b} && g != b && b != NOBODY)
    || (exists g :: tasks == [Task(Disable, g, c)] && g != b && (a == b || (a == g && b == NOBODY)))
  }

  lemma ExplainsFollow(s: State, t: State, c: nat, tasks: seq<Task>)
    requires c < |s.cpus| == |t.cpus| && forall d :: 0 <= d < |s.cpus| && d != c ==> Holder(t.cpus[d]) == Holder(s.cpus[d])
    requires Explains(Holder(s.cpus[c]), Holder(t.cpus[c]), c, tasks)
    ensures Follow(Entitled(s), tasks) == Entitled(t)
  {
    EntitledMoves(s, t, c);
    var a, b, e := Holder(s.cpus[c]), Holder(t.cpus[c]), Entitled(s);
    EntitledAt(s, c);
    hide Holder, Entitled;
    if |tasks| == 1 {
      FollowSingle(e, tasks[0]);
    } else if |tasks| == 2 {
      FollowTwo(e, tasks[0], tasks[1]);
    }
    hide Follow;
  }

  lemma EntitledAt(s: State, c: nat)
    requires c < |s.cpus|
    ensures forall u :: u in Entitled(s) && u.cpu == c ==> u.pid == Holder(s.cpus[c]) && u.pid != NOBODY
    ensures Holder(s.cpus[c]) != NOBODY ==> Use(Holder(s.cpus[c]), c) in Entitled(s)
  {
  }

  lemma AddedIs(s: State, t: State, tasks: seq<Task>)
    requires t.tasks == s.tasks + tasks
    ensures Added(s, t) == tasks
  {
  }

  /** What taking CPU c does to it, and whom it tells: nobody; or pid, when it was idle; or the guest and the owner pid. */
  ghost predicate Takes(a: Cpu, b: Cpu, pid: Pid, c: nat, tasks: seq<Task>) {
    && TookCpu(a, b, pid)
    && (b.state == Busy ==> b.owner != NOBODY || a.state == Busy)
    && ((tasks == [] && Holder(b) == Holder(a))
        || (tasks == [Task(Enable, pid, c)] && a.guest == NOBODY && Holder(b) == pid && Holder(a) in {NOBODY, pid})
        || (tasks == [Task(Disable, a.guest, c), Task(Enable, pid, c)] && a.owner == pid && a.guest != pid && a.guest != NOBODY
            && b.state == Busy))
  }

  /** A CPU of pid, or of nobody when it has no guest, before and after pid took it. */
  predicate TookCpu(a: Cpu, b: Cpu, pid: Pid) {
    && b.owner == a.owner && (b.guest == a.guest || (a.guest == NOBODY && b.guest == pid))
    && (Holder(a) == pid ==> Holder(b) == pid) && (a.state == Busy ==> b.state == Busy)
  }

  lemma ReclaimTakes(s: State, pid: Pid, c: nat) returns (tasks: seq<Task>)
    requires Has(s, c)
    ensures var t := ReclaimCpu(s, pid, c).0; t.tasks == s.tasks + tasks && Takes(s.cpus[c], t.cpus[c], pid, c, tasks)
  {
    var cpu := s.cpus[c];
    tasks := if cpu.owner != pid || cpu.guest == pid then []
             else if cpu.guest == NOBODY then [Task(Enable, pid, c)]
             else [Task(Disable, cpu.guest, c), Task(Enable, pid, c)];
  }

  lemma BorrowTakes(s: State, pid: Pid, c: nat) returns (tasks: seq<Task>)
    requires Has(s, c)
    ensures var t := BorrowCpu(s, pid, c).0; t.tasks == s.tasks + tasks && Takes(s.cpus[c], t.cpus[c], pid, c, tasks)
  {
    hide UpdatedOccupied, CoreIsEligible;
    tasks := if BorrowCpu(s, pid, c).1 == Success then [Task(Enable, pid, c)] else [];
  }

  lemma AcquireTakesCpu(s: State, pid: Pid, c: nat) returns (tasks: seq<Task>)
    requires Has(s, c)
    ensures var t := AcquireCpu(s, pid, c).0; t.tasks == s.tasks + tasks && Takes(s.cpus[c], t.cpus[c], pid, c, tasks)
  {
    hide UpdatedOccupied, CoreIsEligible;
    var cpu := s.cpus[c];
    tasks := if cpu.owner == pid && cpu.guest != pid && cpu.guest != NOBODY
               then [Task(Disable, cpu.guest, c), Task(Enable, pid, c)]
             else if AcquireCpu(s, pid, c).1 == Success then [Task(Enable, pid, c)] else [];
  }

  lemma AttemptTakesCpu(s: State, pid: Pid, wish: Wish, c: nat) returns (tasks: seq<Task>)
    requires Has(s, c)
    ensures var t := Attempt(s, pid, wish, c).0; t.tasks == s.tasks + tasks && Takes(s.cpus[c], t.cpus[c], pid, c, tasks)
  {
    hide AcquireCpu, ReclaimCpu, BorrowCpu, Takes;
    match wish
    case Acquiring => tasks := AcquireTakesCpu(s, pid, c);
    case Borrowing => tasks := BorrowTakes(s, pid, c);
    case Reclaiming => tasks := ReclaimTakes(s, pid, c);
  }

  /** The tasks between s and t say exactly how the table changed. */
  ghost predicate Tells(s: State, t: State) {
    s.tasks <= t.tasks && Follow(Entitled(s), Added(s, t)) == Entitled(t)
  }

  lemma TellsTrans(s: State, t: State, u: State)
    requires Tells(s, t) && Tells(t, u)
    ensures Tells(s, u) && Added(s, u) == Added(s, t) + Added(t, u)
  {
    assert Added(s, u) == Added(s, t) + Added(t, u);
    FollowConcat(Entitled(s), Added(s, t), Added(t, u));
  }

  lemma TellsSame(s: State, t: State)
    requires t.tasks == s.tasks && |t.cpus| == |s.cpus|
    requires forall d :: 0 <= d < |s.cpus| ==> Holder(t.cpus[d]) == Holder(s.cpus[d])
    ensures Tells(s, t)
  {
    AddedIs(s, t, []);
    SameEntitled(s, t);
  }

  lemma SameEntitled(s: State, t: State)
    requires |t.cpus| == |s.cpus| && forall d :: 0 <= d < |s.cpus| ==> Holder(t.cpus[d]) == Holder(s.cpus[d])
    ensures Entitled(t) == Entitled(s)
  {
  }

  lemma AttemptTells(s: State, pid: Pid, wish: Wish, c: nat)
    requires Has(s, c) && BusyOwned(s)
    ensures var t := Attempt(s, pid, wish, c).0; BusyOwned(t) && Tells(s, t)
  {
    var tasks := AttemptTakesCpu(s, pid, wish, c);
    var t := Attempt(s, pid, wish, c).0;
    forall d | 0 <= d < |s.cpus| && d != c ensures t.cpus[d] == s.cpus[d] {
      AttemptAlone(s, pid, wish, c, d);
    }
    assert Explains(Holder(s.cpus[c]), Holder(t.cpus[c]), c, tasks) by { hide Attempt; }
    hide Attempt, Holder, Explains;
    AddedIs(s, t, tasks);
    ExplainsFollow(s, t, c, tasks);
  }

  // ---------------------------------------------------------------- lending

  lemma RefillTells(s: State, c: nat)
    requires Has(s, c) && BusyOwned(s) && s.cpus[c].guest == NOBODY
    ensures var t := Refill(s, c); BusyOwned(t) && Tells(s, t)
  {
    FoundGuest(s, c);
    var (guest, u) := FindNewGuest(s, c);
    var t := Refill(s, c);
    assert u.tasks == s.tasks by { hide FirstRequest, FirstPetition, CoreIsEligible, Granted; }
    hide FindNewGuest, CoreIsEligible, Tells;
    if guest == NOBODY {
      TellsSame(s, t);
    } else {
      AddedIs(s, t, [Task(Enable, guest, c)]);
      ExplainsFollow(s, t, c, [Task(Enable, guest, c)]);
      TellsBy(s, t, [Task(Enable, guest, c)]);
    }
  }

  lemma TellsBy(s: State, t: State, tasks: seq<Task>)
    requires t.tasks == s.tasks + tasks && Follow(Entitled(s), tasks) == Entitled(t)
    ensures Tells(s, t)
  {
  }

  lemma FillOneTells(s: State, c: nat, d: nat)
    requires Has(s, c) && d < |s.cpus| && BusyOwned(s)
    ensures var t := FillOne(s, c, d); BusyOwned(t) && Tells(s, t)
  {
    if d != c && SameCore(s.core, c, d) && s.cpus[d].guest == NOBODY {
      RefillTells(s, d);
      var t := Refill(s, d);
      hide Refill, Tells;
      TellsSame(t, FillOne(s, c, d));
      TellsTrans(s, t, FillOne(s, c, d));
    } else {
      TellsSame(s, s);
    }
  }

  lemma {:induction false} FillCoreTells(s: State, c: nat, d: nat)
    requires Has(s, c) && BusyOwned(s)
    ensures var t := FillCore(s, c, d); BusyOwned(t) && Tells(s, t)
    decreases |s.cpus| - d
  {
    if d < |s.cpus| {
      FillOneTells(s, c, d);
      var t := FillOne(s, c, d);
      hide FillOne, BusyOwned, Tells;
      FillCoreTells(t, c, d + 1);
      TellsTrans(s, t, FillCore(t, c, d + 1));
    } else {
      TellsSame(s, s);
    }
  }

  lemma RehostTells(s: State, c: nat)
    requires Has(s, c) && BusyOwned(s)
    ensures var t := Rehost(s, c); BusyOwned(t) && Tells(s, t)
  {
    if s.cpus[c].guest == NOBODY {
      RefillTells(s, c);
      var t := Refill(s, c);
      hide Refill, FillCore, Tells;
      if t.cpus[c].guest == NOBODY {
        TellsSame(t, Rehost(s, c));
        TellsTrans(s, t, Rehost(s, c));
      } else {
        FillCoreTells(t, c, 0);
        TellsTrans(s, t, Rehost(s, c));
      }
    } else {
      TellsSame(s, s);
    }
  }

  /** The owner lends a CPU that it reclaimed and that its guest has not returned. */
  predicate LendsBack(cpu: Cpu, pid: Pid) {
    cpu.owner == pid && cpu.state == Busy && cpu.guest != pid && cpu.guest != NOBODY
  }

  /** A lender stops using its CPU and every new guest is told; only a CPU lent back to its guest is not announced. */
  lemma LendTells(s: State, pid: Pid, c: nat)
    requires Has(s, c) && BusyOwned(s)
    ensures var t := LendCpu(s, pid, c); var told := Follow(Entitled(s), Told(s, pid, Lend(c)));
      && BusyOwned(t) && s.tasks <= t.tasks && told <= Entitled(t) && (told == Entitled(t) <==> !LendsBack(s.cpus[c], pid))
  {
    if s.cpus[c].state == CpuState.Disabled {
      AddedIs(s, s, []);
    } else {
      var s1 := Put(s, c, LetGo(s.cpus[c], pid, s.queues));
      RehostTells(s1, c);
      var t1 := Rehost(s1, c);
      var t := LendCpu(s, pid, c);
      hide Rehost, Without, UpdatedOccupied;
      TellsSame(t1, t);
      TellsTrans(s1, t1, t);
      assert Added(s, t) == Added(s1, t);
      var x := [Task(Disable, pid, c)];
      FollowConcat(Entitled(s), x, Added(s, t));
      LetGoTells(s, pid, c);
      assert BusyOwned(t);
      if LendsBack(s.cpus[c], pid) {
        assert t1 == s1 by { RehostNot(s1, c); }
        SameEntitled(s1, t);
        AddedIs(s1, t, []);
      }
    }
  }

  /** The owner lends, q borrows, the owner reclaims and lends again before q returns the CPU: q was told to stop, and the
      table has it as the guest of a lent CPU. */
  lemma LentBackUnannounced(s: State, p: Pid, q: Pid, c: nat)
    requires InUse(s, p, c) && p != q
    ensures var s2 := BorrowCpu(LendCpu(s, p, c), q, c).0; var s3 := ReclaimCpu(s2, p, c).0; var s4 := LendCpu(s3, p, c);
      && s4.tasks == s.tasks + [Task(Enable, q, c), Task(Disable, q, c), Task(Enable, p, c)]
      && s4.cpus[c] == s.cpus[c].(state := Lent, guest := q)
  {
    LendOwn(s, p, c);
    assert !s.smt;
    hide LendCpu, IndexExact;
    var s2 := BorrowCpu(LendCpu(s, p, c), q, c).0;
    assert s2.cpus == s.cpus[c := s.cpus[c].(state := Lent, guest := q)];
    var s3 := ReclaimCpu(s2, p, c).0;
    assert s3.cpus == s.cpus[c := s.cpus[c].(guest := q)];
    LendsInUse(s3, p, c);
  }

  lemma LendsInUse(s: State, p: Pid, c: nat)
    requires Has(s, c) && LendsBack(s.cpus[c], p)
    ensures var t := LendCpu(s, p, c); t.tasks == s.tasks && t.cpus[c] == s.cpus[c].(state := Lent)
  {
    hide UpdatedOccupied;
  }

  lemma RehostNot(s: State, c: nat)
    requires Has(s, c) && s.cpus[c].guest != NOBODY
    ensures Rehost(s, c) == s
  {
  }

  lemma LetGoTells(s: State, pid: Pid, c: nat)
    requires Has(s, c) && BusyOwned(s) && s.cpus[c].state != CpuState.Disabled
    ensures var t := Put(s, c, LetGo(s.cpus[c], pid, s.queues)); var told := Follow(Entitled(s), [Task(Disable, pid, c)]);
      told <= Entitled(t) && (told == Entitled(t) <==> !LendsBack(s.cpus[c], pid))
  {
    hide Without;
    var t := Put(s, c, LetGo(s.cpus[c], pid, s.queues));
    if LendsBack(s.cpus[c], pid) {
      EntitledMoves(s, t, c);
      FollowSingle(Entitled(s), Task(Disable, pid, c));
      EntitledAt(s, c);
    } else {
      ExplainsFollow(s, t, c, [Task(Disable, pid, c)]);
    }
  }

  // ---------------------------------------------------------------- returning and checking

  lemma VacatedHolders(s: State, c: nat)
    requires Has(s, c)
    ensures var t := Vacated(s, c);
      && t.tasks == s.tasks && (BusyOwned(s) ==> BusyOwned(t))
      && (forall d :: 0 <= d < |s.cpus| && d != c ==> t.cpus[d] == s.cpus[d])
      && Holder(t.cpus[c]) == if s.cpus[c].state == Busy then s.cpus[c].owner else NOBODY
  {
    hide UpdatedOccupied;
  }

  lemma ReturnTells(s: State, pid: Pid, c: nat)
    requires Has(s, c) && BusyOwned(s)
    ensures var t := ReturnCpu(s, pid, c).0; BusyOwned(t) && Tells(s, t)
  {
    var t := ReturnCpu(s, pid, c).0;
    if Keeps(s, pid, c) {
      TellsSame(s, t);
    } else {
      VacatedHolders(s, c);
      hide Vacated, CoreIsEligible, Tells;
      ExplainsFollow(s, t, c, [Task(Disable, pid, c)]);
      TellsBy(s, t, [Task(Disable, pid, c)]);
    }
  }

  /** A process gives back a CPU that it guests and does not own, as the callback of a Disable task does. */
  lemma ReturnAsyncTells(s: State, pid: Pid, c: nat)
    requires Has(s, c) && BusyOwned(s) && s.cpus[c].guest == pid && s.cpus[c].owner != pid
    ensures var t := CpuinfoSpec.ReturnAsync(s, pid, c);
      BusyOwned(t) && t.tasks == s.tasks && Follow(Entitled(s), [Task(Disable, pid, c)]) == Entitled(t)
  {
    VacatedHolders(s, c);
    hide Vacated;
    ExplainsFollow(s, CpuinfoSpec.ReturnAsync(s, pid, c), c, [Task(Disable, pid, c)]);
  }

  lemma CheckTells(s: State, pid: Pid, c: nat)
    requires Has(s, c) && BusyOwned(s)
    ensures var (t, code) := CheckCpu(s, pid, c);
      && BusyOwned(t) && t.tasks == s.tasks
      && Follow(Entitled(s), if code == Success then [Task(Enable, pid, c)] else []) == Entitled(t)
  {
    var (t, code) := CheckCpu(s, pid, c);
    if code == Success {
      ExplainsFollow(s, t, c, [Task(Enable, pid, c)]);
    }
  }

  // ---------------------------------------------------------------- runs

  /** The steps of attached processes; only what the CPU belongs to and who is enabled may not change. A process gives
      back only what it has, and a task added by itself only stops somebody. */
  predicate Orderly(s: State, pid: Pid, act: Act) {
    match act
    case ReturnAsync(c) => c < |s.cpus| && s.cpus[c].guest == pid && s.cpus[c].owner != pid
    case Notify(c, action, who) => action == Disable
    case Register(_, _) => false
    case Leave(_, _) => false
    case Forget(_, _) => false
    case Own(_, _) => false
    case _ => true
  }

  /** A step that stops somebody without the table saying so. */
  predicate Overstops(s: State, pid: Pid, act: Act) {
    act.Notify? || (act.Lend? && act.c < |s.cpus| && LendsBack(s.cpus[act.c], pid))
  }

  /** What the processes learn from a step puts nobody on a CPU that the table does not give it, and is all there is to
      know unless the step stops somebody besides. */
  lemma ActTells(s: State, pid: Pid, act: Act)
    requires BusyOwned(s) && Orderly(s, pid, act)
    ensures var t := Do(s, pid, act); var told := Follow(Entitled(s), Told(s, pid, act));
      && BusyOwned(t) && told <= Entitled(t) && (Overstops(s, pid, act) || told == Entitled(t))
  {
    var t := Do(s, pid, act);
    ToldIs(s, pid, act);
    hide Told, LendCpu, ReclaimCpu, AcquireCpu, BorrowCpu, ReturnCpu, CpuinfoSpec.ReturnAsync, CheckCpu, RegisterCpu, LeaveCpu, ForgetCpu,
      OwnCpu, Entitled, Follow;
    if act.Repost? || act.c >= |s.cpus| || act.Requeue? {
      AddedIs(s, t, []);
      SameEntitled(s, t);
    } else {
      match act
      case Lend(c) => LendTells(s, pid, c);
      case Reclaim(c) => AttemptTells(s, pid, Reclaiming, c);
      case Acquire(c) => AttemptTells(s, pid, Acquiring, c);
      case Borrow(c) => AttemptTells(s, pid, Borrowing, c);
      case Return(c) => ReturnTells(s, pid, c);
      case ReturnAsync(c) => ReturnAsyncTells(s, pid, c); AddedIs(s, t, []);
      case Check(c) => CheckTells(s, pid, c); AddedIs(s, t, []);
      case Notify(c, action, who) =>
        AddedIs(s, t, [Task(Disable, who, c)]);
        FollowSingle(Entitled(s), Task(Disable, who, c));
        SameEntitled(s, t);
    }
  }

  lemma ToldIs(s: State, pid: Pid, act: Act)
    requires |s.core| == |s.cpus|
    ensures Answer(s, pid, act) == [] ==> Told(s, pid, act) == Added(s, Do(s, pid, act))
    ensures Added(s, Do(s, pid, act)) == [] ==> Told(s, pid, act) == Answer(s, pid, act)
  {
    hide Do;
  }

  /** Every step of a run is orderly where it happens. */
  predicate OrderlyRun(s: State, steps: seq<Step>)
    requires |s.core| == |s.cpus|
    decreases |steps|
  {
    steps == [] ||
    (Orderly(s, steps[0].pid, steps[0].act) && OrderlyRun(Do(s, steps[0].pid, steps[0].act), steps[1..]))
  }

  predicate OverstopsRun(s: State, steps: seq<Step>)
    requires |s.core| == |s.cpus|
    decreases |steps|
  {
    steps != [] &&
    (Overstops(s, steps[0].pid, steps[0].act) || OverstopsRun(Do(s, steps[0].pid, steps[0].act), steps[1..]))
  }

  /** What is in use at the end of a run in which everybody does as told. */
  function UsedAfter(s: State, using: set<Use>, steps: seq<Step>): set<Use>
    requires |s.core| == |s.cpus|
    decreases |steps|
  {
    if steps == [] then using
    else UsedAfter(Do(s, steps[0].pid, steps[0].act), Follow(using, Told(s, steps[0].pid, steps[0].act)), steps[1..])
  }

  /** In every run of lend, reclaim, acquire, borrow, return and availability calls, processes that do as told use only
      the CPUs that the table gives them, and exactly those unless somebody was stopped besides. */
  lemma {:induction false} RunTells(s: State, using: set<Use>, steps: seq<Step>)
    requires BusyOwned(s) && using <= Entitled(s) && OrderlyRun(s, steps)
    ensures UsedAfter(s, using, steps) <= Entitled(Run(s, steps))
    ensures using == Entitled(s) && !OverstopsRun(s, steps) ==> UsedAfter(s, using, steps) == Entitled(Run(s, steps))
    decreases |steps|
  {
    if steps != [] {
      var pid, act := steps[0].pid, steps[0].act;
      ActTells(s, pid, act);
      FollowMonotone(using, Entitled(s), Told(s, pid, act));
      hide Do, Entitled, Follow, Told, Orderly, Overstops, BusyOwned;
      RunTells(Do(s, pid, act), Follow(using, Told(s, pid, act)), steps[1..]);
    }
  }

  /** So no two of them ever use the same CPU. */
  lemma NeverShared(s: State, using: set<Use>, steps: seq<Step>, a: Use, b: Use)
    requires BusyOwned(s) && using <= Entitled(s) && OrderlyRun(s, steps)
    requires a in UsedAfter(s, using, steps) && b in UsedAfter(s, using, steps) && a.cpu == b.cpu
    ensures a.pid == b.pid
  {
    RunTells(s, using, steps);
    hide UsedAfter, OrderlyRun, BusyOwned, Run, Holder;
  }

  // ---------------------------------------------------------------- the tasks of one call

  /** What a task of pid means: it starts pid on a CPU that is then its own, or stops the guest of one that pid owns. */
  ghost predicate Means(s: State, t: State, pid: Pid, task: Task) {
    && task.cpu < |s.cpus| == |t.cpus|
    && if task.action == Enable then task.pid == pid && Holder(t.cpus[task.cpu]) == pid
       else && s.cpus[task.cpu].owner == pid && task.pid == s.cpus[task.cpu].guest && task.pid != pid && task.pid != NOBODY
            && t.cpus[task.cpu].state == Busy
  }

  /** A call by which pid takes CPUs: owners stay, guests give way to nobody, pid loses nothing, every task says so,
      and nothing that changes goes untold. */
  ghost predicate Took(s: State, t: State, pid: Pid) {
    && SameTopology(s, t) && s.tasks <= t.tasks
    && (forall c :: 0 <= c < |s.cpus| ==> TookCpu(s.cpus[c], t.cpus[c], pid))
    && (forall k :: |s.tasks| <= k < |t.tasks| ==> Means(s, t, pid, t.tasks[k]))
    && (BusyOwned(s) ==> BusyOwned(t) && Tells(s, t))
  }

  lemma TookTrans(s: State, t: State, u: State, pid: Pid)
    requires Took(s, t, pid) && Took(t, u, pid)
    ensures Took(s, u, pid)
  {
    forall k | |s.tasks| <= k < |u.tasks| ensures Means(s, u, pid, u.tasks[k]) {
      if k < |t.tasks| {
        assert u.tasks[k] == t.tasks[k];
      }
    }
    hide Means, Tells, BusyOwned, TookCpu;
    if BusyOwned(s) {
      TellsTrans(s, t, u);
    }
  }

  lemma TookNothing(s: State, pid: Pid)
    ensures Took(s, s, pid)
  {
    TellsSame(s, s);
    hide Tells;
  }

  lemma TakesMeans(s: State, t: State, pid: Pid, c: nat, tasks: seq<Task>)
    requires c < |s.cpus| == |t.cpus| && Takes(s.cpus[c], t.cpus[c], pid, c, tasks)
    ensures TookCpu(s.cpus[c], t.cpus[c], pid) && forall k :: 0 <= k < |tasks| ==> Means(s, t, pid, tasks[k])
  {
  }

  lemma AttemptTook(s: State, pid: Pid, wish: Wish, c: nat)
    requires Has(s, c)
    ensures Took(s, Attempt(s, pid, wish, c).0, pid)
  {
    hide Attempt, Means, BusyOwned, Tells, Takes, Holder;
    var tasks := AttemptTakesCpu(s, pid, wish, c);
    var t := Attempt(s, pid, wish, c).0;
    TakesMeans(s, t, pid, c, tasks);
    forall d | 0 <= d < |s.cpus| ensures TookCpu(s.cpus[d], t.cpus[d], pid) {
      if d != c {
        AttemptAlone(s, pid, wish, c, d);
      }
    }
    if BusyOwned(s) {
      AttemptTells(s, pid, wish, c);
    }
    forall k | |s.tasks| <= k < |t.tasks| ensures Means(s, t, pid, t.tasks[k]) {
      assert t.tasks[k] == tasks[k - |s.tasks|];
    }
  }

  lemma {:induction false} TakeCoreTook(s: State, pid: Pid, wish: Wish, core: nat, c: nat, code: Code, count: int)
    requires |s.core| == |s.cpus|
    ensures Took(s, TakeCore(s, pid, wish, core, c, code, count).state, pid)
    decreases |s.cpus| - c
  {
    TookNothing(s, pid);
    if c < |s.cpus| && s.core[c] == core {
      AttemptTook(s, pid, wish, c);
      var (t, local) := Attempt(s, pid, wish, c);
      hide Attempt, Took;
      TakeCoreTook(t, pid, wish, core, c + 1, Merged(code, local), count + 1);
      TakeCoreTook(t, pid, wish, core, c + 1, code, count);
      TookTrans(s, t, TakeCore(s, pid, wish, core, c, code, count).state, pid);
    } else if c < |s.cpus| {
      TakeCoreTook(s, pid, wish, core, c + 1, code, count);
    }
  }

  lemma {:induction false} TakeArrayTook(s: State, pid: Pid, wish: Wish, list: seq<nat>, i: nat, count: int,
      prev: int, code: Code)
    requires |s.core| == |s.cpus| && InTable(s, list)
    ensures Took(s, TakeArray(s, pid, wish, list, i, count, prev, code).state, pid)
    decreases |list| - i
  {
    TookNothing(s, pid);
    if count > 0 && i < |list| {
      var c := list[i];
      hide Took, Attempt, TakeCore;
      if !s.smt {
        AttemptTook(s, pid, wish, c);
        var (t, local) := Attempt(s, pid, wish, c);
        TakeArrayTook(t, pid, wish, list, i + 1, if Got(local) then count - 1 else count, prev, Merged(code, local));
        TookTrans(s, t, TakeArray(s, pid, wish, list, i, count, prev, code).state, pid);
      } else if prev == s.core[c] {
        TakeArrayTook(s, pid, wish, list, i + 1, count, prev, code);
      } else {
        TakeCoreTook(s, pid, wish, s.core[c], 0, NoUpdt, 0);
        var b := TakeCore(s, pid, wish, s.core[c], 0, NoUpdt, 0);
        TakeArrayTook(b.state, pid, wish, list, i + 1, if Got(b.code) then count - b.count else count, s.core[c],
          Merged(code, b.code));
        TookTrans(s, b.state, TakeArray(s, pid, wish, list, i, count, prev, code).state, pid);
      }
    }
  }

  lemma {:induction false} AskEachTook(s: State, pid: Pid, list: seq<nat>, i: nat, code: Code)
    requires |s.core| == |s.cpus| && InTable(s, list)
    ensures Took(s, AskEach(s, pid, list, i, code).0, pid)
    decreases |list| - i
  {
    TookNothing(s, pid);
    hide Took;
    if i < |list| {
      var cpu := s.cpus[list[i]];
      if |cpu.requests| < REQUESTS_CAPACITY {
        var t := Put(s, list[i], cpu.(requests := cpu.requests + [pid]));
        AskTook(s, pid, list[i], cpu.requests + [pid]);
        AskEachTook(t, pid, list, i + 1, Noted);
        TookTrans(s, t, AskEach(t, pid, list, i + 1, Noted).0, pid);
      }
      AskEachTook(s, pid, list, i + 1, code);
    }
  }

  lemma AskTook(s: State, pid: Pid, c: nat, requests: seq<Pid>)
    requires Has(s, c)
    ensures Took(s, Put(s, c, s.cpus[c].(requests := requests)), pid)
  {
    TellsSame(s, Put(s, c, s.cpus[c].(requests := requests)));
    hide Tells;
  }

  /** Every task of an acquire starts the caller on a CPU that it then has, or stops the guest of one of its own. */
  lemma AcquireTook(s: State, pid: Pid, counted: bool, wanted: int, list: seq<nat>)
    requires |s.core| == |s.cpus| && InTable(s, list)
    ensures Took(s, AcquireNcpus(s, pid, counted, wanted, list).0, pid)
  {
    hide Took, TakeArray, Select, AskEach, Posted;
    var a := TakeArray(s, pid, Acquiring, Select(s, pid, list, OwnedIdle), 0, wanted, -1, NoUpdt);
    TakeArrayTook(s, pid, Acquiring, Select(s, pid, list, OwnedIdle), 0, wanted, -1, NoUpdt);
    var b := TakeArray(a.state, pid, Acquiring, Select(s, pid, list, OwnedInUse), 0, a.count, -1, NoUpdt);
    TakeArrayTook(a.state, pid, Acquiring, Select(s, pid, list, OwnedInUse), 0, a.count, -1, NoUpdt);
    TookTrans(s, a.state, b.state, pid);
    var d := TakeArray(b.state, pid, Borrowing, Select(s, pid, list, NotOwned), 0, b.count, -1, NoUpdt);
    TakeArrayTook(b.state, pid, Borrowing, Select(s, pid, list, NotOwned), 0, b.count, -1, NoUpdt);
    TookTrans(s, b.state, d.state, pid);
    var code := Merged(Merged(a.code, b.code), d.code);
    AskEachTook(d.state, pid, list, 0, code);
    TookTrans(s, d.state, AskEach(d.state, pid, list, 0, code).0, pid);
    TookQueue(s, d.state, pid, AcquireNcpus(s, pid, counted, wanted, list).0.petitions);
  }

  lemma TookQueue(s: State, t: State, pid: Pid, petitions: seq<Petition>)
    requires Took(s, t, pid)
    ensures Took(s, t.(petitions := petitions), pid)
  {
    var u := t.(petitions := petitions);
    if BusyOwned(s) {
      TellsSame(t, u);
      TellsTrans(s, t, u);
    }
    assert forall task :: Means(s, t, pid, task) ==> Means(s, u, pid, task);
    hide Tells, Means;
  }

  /** So does every task of a borrow. */
  lemma BorrowTook(s: State, pid: Pid, wanted: int, list: seq<nat>, spread: bool, freeNodes: State -> seq<nat>)
    requires |s.core| == |s.cpus| && InTable(s, list)
    ensures Took(s, BorrowNcpus(s, pid, wanted, list, spread, freeNodes).0, pid)
  {
    hide Took, TakeArray;
    var n := if s.free == {} then 0 else wanted;
    var b := TakeArray(s, pid, Borrowing, list, 0, n, -1, NoUpdt);
    TakeArrayTook(s, pid, Borrowing, list, 0, n, -1, NoUpdt);
    if spread && b.count > 0 && InTable(b.state, freeNodes(b.state)) {
      TakeArrayTook(b.state, pid, Borrowing, freeNodes(b.state), 0, b.count, -1, NoUpdt);
      TookTrans(s, b.state, TakeArray(b.state, pid, Borrowing, freeNodes(b.state), 0, b.count, -1, NoUpdt).state, pid);
    }
  }

  lemma {:induction false} ReclaimOwnedTook(s: State, pid: Pid, todo: set<nat>, code: Code, c: nat)
    requires |s.core| == |s.cpus|
    ensures Took(s, ReclaimOwned(s, pid, todo, code, c).0, pid)
    decreases |s.cpus| - c
  {
    TookNothing(s, pid);
    if c < |s.cpus| {
      AttemptTook(s, pid, Reclaiming, c);
      var (t, local) := ReclaimCpu(s, pid, c);
      hide ReclaimCpu, Took, Best;
      ReclaimOwnedTook(t, pid, todo, Best(code, local), c + 1);
      ReclaimOwnedTook(s, pid, todo, code, c + 1);
      if c in todo && s.cpus[c].owner == pid && s.cpus[c].guest != pid {
        TookTrans(s, t, ReclaimOwned(t, pid, todo, Best(code, local), c + 1).0, pid);
      }
    }
  }

  lemma {:induction false} ReclaimEachTook(s: State, pid: Pid, todo: set<nat>, code: Code, c: nat)
    requires |s.core| == |s.cpus|
    ensures Took(s, ReclaimEach(s, pid, todo, code, c).0, pid)
    decreases |s.cpus| - c
  {
    TookNothing(s, pid);
    if c < |s.cpus| {
      AttemptTook(s, pid, Reclaiming, c);
      var (t, local) := ReclaimCpu(s, pid, c);
      hide ReclaimCpu, Took, Worst;
      ReclaimEachTook(t, pid, todo, Worst(code, local), c + 1);
      ReclaimEachTook(s, pid, todo, code, c + 1);
      if c in todo {
        TookTrans(s, t, ReclaimEach(t, pid, todo, Worst(code, local), c + 1).0, pid);
      }
    }
  }

  lemma {:induction false} ReclaimCpusTook(s: State, pid: Pid, count: int, cores: nat, core: nat, code: Code)
    requires |s.core| == |s.cpus|
    ensures Took(s, ReclaimCpus(s, pid, count, cores, core, code).0, pid)
    decreases cores - core
  {
    TookNothing(s, pid);
    if count > 0 && core < cores {
      TakeCoreTook(s, pid, Reclaiming, core, 0, NoUpdt, 0);
      var b := TakeCore(s, pid, Reclaiming, core, 0, NoUpdt, 0);
      var left := if Got(b.code) then count - b.count else count;
      hide TakeCore, Took, Best;
      ReclaimCpusTook(b.state, pid, left, cores, core + 1, Best(code, b.code));
      TookTrans(s, b.state, ReclaimCpus(b.state, pid, left, cores, core + 1, Best(code, b.code)).0, pid);
    }
  }

  /** And of the reclaims of all CPUs, of a mask and of a number. */
  lemma ReclaimTook(s: State, pid: Pid, mask: set<nat>, count: int, cores: nat)
    requires |s.core| == |s.cpus|
    ensures Took(s, ReclaimAll(s, pid).0, pid) && Took(s, ReclaimMask(s, pid, mask).0, pid)
    ensures Took(s, ReclaimCpus(s, pid, count, cores, 0, NoUpdt).0, pid)
  {
    ReclaimOwnedTook(s, pid, s.free + s.occupied, NoUpdt, 0);
    ReclaimEachTook(s, pid, (s.free + s.occupied) * mask, NoUpdt, 0);
    ReclaimCpusTook(s, pid, count, cores, 0, NoUpdt);
    hide Took;
  }

  // ---------------------------------------------------------------- acquiring an own CPU, and waiting for another

  /** Acquiring an own CPU that another process uses, or nobody, is reclaiming it. */
  lemma AcquireIsReclaim(s: State, pid: Pid, c: nat)
    requires Has(s, c) && s.cpus[c].owner == pid && s.cpus[c].guest != pid
    ensures var (a, b) := (AcquireCpu(s, pid, c), ReclaimCpu(s, pid, c));
      && a.1 == b.1 && a.0.tasks == b.0.tasks && a.0.cpus == b.0.cpus && a.0.free == b.0.free
      && (s.cpus[c].guest == NOBODY || c in s.occupied ==> a == b)
  {
    hide UpdatedOccupied;
  }

  /** The owner lends a CPU, q borrows it, the owner acquires it, q returns it: as with a reclaim. */
  lemma HandoverByAcquire(s: State, p: Pid, q: Pid, c: nat)
    requires InUse(s, p, c) && p != q
    ensures var (s2, borrowed) := BorrowCpu(LendCpu(s, p, c), q, c);
      && borrowed == Success && Has(s2, c)
      && var (s3, acquired) := AcquireCpu(s2, p, c);
      && acquired == Noted && Has(s3, c)
      && ReturnCpu(s3, q, c) ==
         (Logged(s, [Task(Enable, q, c), Task(Disable, q, c), Task(Enable, p, c), Task(Disable, q, c)]), Success)
  {
    HandoverCycle(s, p, q, c);
    LendOwn(s, p, c);
    var s1 := LendCpu(s, p, c);
    assert !s.smt;
    hide LendCpu, IndexExact;
    var s2 := BorrowCpu(s1, q, c).0;
    assert c in s2.occupied && s2.cpus[c].owner == p && s2.cpus[c].guest == q;
    hide BorrowCpu;
    AcquireIsReclaim(s2, p, c);
  }

  /** When acquiring a CPU that is not available leaves a request: in asynchronous mode, last in its queue, unless
      that is full. */
  lemma AcquireAsks(s: State, pid: Pid, c: nat)
    requires Has(s, c) && s.cpus[c].owner != pid && s.cpus[c].guest != pid
    requires !(s.cpus[c].guest == NOBODY && s.cpus[c].state == Lent && CoreIsEligible(s, pid, c))
    ensures var (t, code) := AcquireCpu(s, pid, c); var q := s.cpus[c].requests;
      && t == Put(s, c, s.cpus[c].(requests := t.cpus[c].requests))
      && t.cpus[c].requests == (if s.queues && |q| < REQUESTS_CAPACITY then q + [pid] else q)
      && (code == Noted <==> s.queues && |q| < REQUESTS_CAPACITY)
      && (code == ErrReqst <==> s.queues && |q| >= REQUESTS_CAPACITY)
      && (code == ErrPerm <==> !s.queues && s.cpus[c].state == CpuState.Disabled)
  {
    hide CoreIsEligible;
    assert s.cpus[c := s.cpus[c]] == s.cpus;
  }

  /** A guest that gives back a reclaimed CPU waits for it as the last one, so when the owner lends it again, whoever
      waits longest has it: the same guest, if nobody else did. */
  lemma AsyncCycle(s: State, p: Pid, q: Pid, c: nat)
    requires Has(s, c) && !s.smt && s.queues && p != q && |s.cpus[c].requests| < REQUESTS_CAPACITY
    requires s.cpus[c].owner == p && s.cpus[c].guest == q && s.cpus[c].state == Busy
    ensures var line := s.cpus[c].requests + [q];
      var back := CpuinfoSpec.ReturnAsync(s, q, c);
      && back.cpus[c] == Cpu(p, p, Busy, line)
      && LendCpu(back, p, c).cpus[c] == Cpu(p, line[0], Lent, line[1..])
  {
    var t := CpuinfoSpec.ReturnAsync(s, q, c);
    hide UpdatedOccupied;
    assert t.cpus[c] == Cpu(p, p, Busy, s.cpus[c].requests + [q]);
    LendServes(t, p, c);
  }

  lemma LendServes(s: State, p: Pid, c: nat)
    requires Has(s, c) && !s.smt && s.queues && s.cpus[c].owner == p && s.cpus[c].guest == p
    requires s.cpus[c].state != CpuState.Disabled && s.cpus[c].requests != []
    ensures var line := s.cpus[c].requests;
      LendCpu(s, p, c).cpus[c] == Cpu(p, line[0], Lent, line[1..])
  {
    var s1 := Put(s, c, LetGo(s.cpus[c], p, s.queues));
    var t := Refill(s1, c);
    hide Without, FillCore, UpdatedOccupied;
    assert t.cpus[c] == Cpu(p, s.cpus[c].requests[0], Lent, s.cpus[c].requests[1..]) by {
      assert CoreIsEligible(s1, s1.cpus[c].requests[0], c);
      assert FirstRequest(s1, c, 0) == 0;
    }
    hide Refill;
    FillCoreSkips(t, c, 0);
  }

  /** Filling the rest of a core does not touch the CPU that was filled first. */
  lemma {:induction false} FillCoreSkips(s: State, c: nat, d: nat)
    requires Has(s, c)
    ensures FillCore(s, c, d).cpus[c] == s.cpus[c]
    decreases |s.cpus| - d
  {
    if d < |s.cpus| {
      FillOneSkips(s, c, d);
      hide FillOne;
      FillCoreSkips(FillOne(s, c, d), c, d + 1);
    }
  }

  lemma FillOneSkips(s: State, c: nat, d: nat)
    requires Has(s, c) && d < |s.cpus|
    ensures FillOne(s, c, d).cpus[c] == s.cpus[c]
  {
    if d != c && SameCore(s.core, c, d) && s.cpus[d].guest == NOBODY {
      hide FirstRequest, FirstPetition, Granted, CoreIsEligible;
    }
  }
}
