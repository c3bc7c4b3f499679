/** Every loop of the CPU table's operations is a run of acts of its caller (src/LB_comm/shmem_cpuinfo.c). */
module CpuinfoReaches {
  import opened Codes
  import opened CpuinfoSpec
  import opened CpuinfoActs
  import opened CpuinfoOps

  /** Acts of the LeWI operations: no registration, no direct deregistration, no transfer of ownership. */
  predicate Lewi(act: Act) {
    !act.Register? && !act.Forget? && !act.Own? && !act.Check?
  }

  ghost predicate LewiBy(steps: seq<Step>, pid: Pid, leaving: bool) {
    forall i :: 0 <= i < |steps| ==> steps[i].pid == pid && Lewi(steps[i].act) && (steps[i].act.Leave? ==> leaving)
  }

  /** t is what a run of LeWI acts of pid makes of s; only a process that is leaving runs Leave acts. */
  ghost predicate Reaches(s: State, t: State, pid: Pid, leaving: bool := false)
    requires |s.core| == |s.cpus|
  {
    exists steps :: LewiBy(steps, pid, leaving) && Run(s, steps) == t
  }

  lemma Stays(s: State, pid: Pid, leaving: bool := false)
    requires |s.core| == |s.cpus|
    ensures Reaches(s, s, pid, leaving)
  {
    assert Run(s, []) == s && LewiBy([], pid, leaving);
  }

  lemma {:induction false} RunAppend(s: State, a: seq<Step>, b: seq<Step>)
    requires |s.core| == |s.cpus|
    ensures Run(s, a + b) == Run(Run(s, a), b)
    decreases |a|
  {
    if a == [] {
      assert a + b == b;
    } else {
      hide Do;
      RunAppend(Do(s, a[0].pid, a[0].act), a[1..], b);
      assert (a + b)[1..] == a[1..] + b;
    }
  }

  lemma Chain(s: State, t: State, u: State, pid: Pid, leaving: bool := false)
    requires |s.core| == |s.cpus| && SameTopology(s, t) && Reaches(s, t, pid, leaving) && Reaches(t, u, pid, leaving)
    ensures Reaches(s, u, pid, leaving)
  {
    var a :| LewiBy(a, pid, leaving) && Run(s, a) == t;
    var b :| LewiBy(b, pid, leaving) && Run(t, b) == u;
    RunAppend(s, a, b);
    assert LewiBy(a + b, pid, leaving);
  }

  lemma AlsoLeaving(s: State, t: State, pid: Pid)
    requires |s.core| == |s.cpus| && Reaches(s, t, pid)
    ensures Reaches(s, t, pid, true)
  {
    hide Run;
    var a :| LewiBy(a, pid, false) && Run(s, a) == t;
    assert LewiBy(a, pid, true);
  }

  lemma One(s: State, pid: Pid, act: Act, leaving: bool := false)
    requires |s.core| == |s.cpus| && Lewi(act) && (act.Leave? ==> leaving)
    ensures Reaches(s, Do(s, pid, act), pid, leaving)
  {
    hide Do;
    var steps := [Step(pid, act)];
    assert steps[1..] == [];
    assert Run(Do(s, pid, act), []) == Do(s, pid, act);
    assert Run(s, steps) == Do(s, pid, act) && LewiBy(steps, pid, leaving);
  }

  /** The operations on one CPU are acts. */
  lemma OnCpu(s: State, pid: Pid, c: nat)
    requires Has(s, c)
    ensures Reaches(s, LendCpu(s, pid, c), pid)
    ensures Reaches(s, ReclaimCpu(s, pid, c).0, pid) && Reaches(s, AcquireCpu(s, pid, c).0, pid)
    ensures Reaches(s, BorrowCpu(s, pid, c).0, pid) && Reaches(s, ReturnCpu(s, pid, c).0, pid)
    ensures Reaches(s, CpuinfoSpec.ReturnAsync(s, pid, c), pid)
    ensures forall public :: Reaches(s, LeaveCpu(s, pid, public, c), pid, true)
  {
    hide LendCpu, ReclaimCpu, AcquireCpu, BorrowCpu, ReturnCpu, CpuinfoSpec.ReturnAsync, LeaveCpu, Reaches;
    One(s, pid, Lend(c));
    One(s, pid, Reclaim(c));
    One(s, pid, Acquire(c));
    One(s, pid, Borrow(c));
    One(s, pid, Return(c));
    One(s, pid, Act.ReturnAsync(c));
    One(s, pid, Leave(c, false), true);
    One(s, pid, Leave(c, true), true);
  }

  lemma QueueEdits(s: State, pid: Pid, c: nat, requests: seq<Pid>, petitions: seq<Petition>)
    requires Has(s, c)
    ensures Reaches(s, Put(s, c, s.cpus[c].(requests := requests)), pid)
    ensures Reaches(s, s.(petitions := petitions), pid)
  {
    One(s, pid, Requeue(c, requests));
    One(s, pid, Repost(petitions));
    hide Reaches;
  }

  lemma Notified(s: State, pid: Pid, action: Action, who: nat, c: nat)
    requires Has(s, c)
    ensures Reaches(s, CpuinfoSpec.Push(s, action, who, c), pid)
  {
    One(s, pid, Notify(c, action, who));
    hide Reaches;
  }

  lemma {:induction false} LendMaskReaches(s: State, pid: Pid, mask: set<nat>, c: nat)
    requires |s.core| == |s.cpus|
    ensures Reaches(s, LendMask(s, pid, mask, c), pid)
    decreases |s.cpus| - c
  {
    hide Reaches, LendCpu;
    Stays(s, pid);
    if c < |s.cpus| {
      OnCpu(s, pid, c);
      var t := if c in mask then LendCpu(s, pid, c) else s;
      LendMaskReaches(t, pid, mask, c + 1);
      Chain(s, t, LendMask(s, pid, mask, c), pid);
    }
  }

  lemma {:induction false} ReclaimOwnedReaches(s: State, pid: Pid, todo: set<nat>, code: Code, c: nat)
    requires |s.core| == |s.cpus|
    ensures Reaches(s, ReclaimOwned(s, pid, todo, code, c).0, pid)
    decreases |s.cpus| - c
  {
    hide Reaches, ReclaimCpu;
    Stays(s, pid);
    if c < |s.cpus| {
      OnCpu(s, pid, c);
      if c in todo && s.cpus[c].owner == pid && s.cpus[c].guest != pid {
        var (t, local) := ReclaimCpu(s, pid, c);
        ReclaimOwnedReaches(t, pid, todo, Best(code, local), c + 1);
        Chain(s, t, ReclaimOwned(t, pid, todo, Best(code, local), c + 1).0, pid);
      } else {
        ReclaimOwnedReaches(s, pid, todo, code, c + 1);
      }
    }
  }

  lemma {:induction false} ReclaimEachReaches(s: State, pid: Pid, todo: set<nat>, code: Code, c: nat)
    requires |s.core| == |s.cpus|
    ensures Reaches(s, ReclaimEach(s, pid, todo, code, c).0, pid)
    decreases |s.cpus| - c
  {
    hide Reaches, ReclaimCpu;
    Stays(s, pid);
    if c < |s.cpus| {
      OnCpu(s, pid, c);
      if c in todo {
        var (t, local) := ReclaimCpu(s, pid, c);
        ReclaimEachReaches(t, pid, todo, Worst(code, local), c + 1);
        Chain(s, t, ReclaimEach(t, pid, todo, Worst(code, local), c + 1).0, pid);
      } else {
        ReclaimEachReaches(s, pid, todo, code, c + 1);
      }
    }
  }

  lemma {:induction false} DisableRestReaches(s: State, pid: Pid, c: nat, d: nat)
    requires Has(s, c)
    ensures Reaches(s, DisableRest(s, pid, c, d), pid)
    decreases |s.cpus| - d
  {
    hide Reaches;
    Stays(s, pid);
    if d < |s.cpus| {
      var t := CpuinfoSpec.Push(s, Disable, s.cpus[d].guest, d);
      Notified(s, pid, Disable, s.cpus[d].guest, d);
      if d != c && SameCore(s.core, c, d) && s.cpus[d].guest != pid {
        DisableRestReaches(t, pid, c, d + 1);
        Chain(s, t, DisableRest(t, pid, c, d + 1), pid);
      } else {
        DisableRestReaches(s, pid, c, d + 1);
      }
    }
  }

  lemma AttemptReaches(s: State, pid: Pid, wish: Wish, c: nat)
    requires Has(s, c)
    ensures Reaches(s, Attempt(s, pid, wish, c).0, pid)
  {
    hide Reaches, AcquireCpu, BorrowCpu, ReclaimCpu;
    OnCpu(s, pid, c);
  }

  lemma {:induction false} TakeCoreReaches(s: State, pid: Pid, wish: Wish, core: nat, c: nat, code: Code, count: int)
    requires |s.core| == |s.cpus|
    ensures Reaches(s, TakeCore(s, pid, wish, core, c, code, count).state, pid)
    decreases |s.cpus| - c
  {
    hide Reaches, Attempt;
    Stays(s, pid);
    if c < |s.cpus| {
      if s.core[c] != core {
        TakeCoreReaches(s, pid, wish, core, c + 1, code, count);
      } else {
        AttemptReaches(s, pid, wish, c);
        var (t, local) := Attempt(s, pid, wish, c);
        var code1, count1 := if Got(local) then Merged(code, local) else code, if Got(local) then count + 1 else count;
        TakeCoreReaches(t, pid, wish, core, c + 1, code1, count1);
        Chain(s, t, TakeCore(t, pid, wish, core, c + 1, code1, count1).state, pid);
      }
    }
  }

  lemma {:induction false} TakeArrayReaches(s: State, pid: Pid, wish: Wish, list: seq<nat>, i: nat, count: int,
      prev: int, code: Code)
    requires |s.core| == |s.cpus| && InTable(s, list)
    ensures Reaches(s, TakeArray(s, pid, wish, list, i, count, prev, code).state, pid)
    decreases |list| - i
  {
    hide Reaches, Attempt, TakeCore;
    Stays(s, pid);
    if count > 0 && i < |list| {
      var c := list[i];
      if !s.smt {
        AttemptReaches(s, pid, wish, c);
        var (t, local) := Attempt(s, pid, wish, c);
        var count1 := if Got(local) then count - 1 else count;
        TakeArrayReaches(t, pid, wish, list, i + 1, count1, prev, Merged(code, local));
        Chain(s, t, TakeArray(t, pid, wish, list, i + 1, count1, prev, Merged(code, local)).state, pid);
      } else if prev == s.core[c] {
        TakeArrayReaches(s, pid, wish, list, i + 1, count, prev, code);
      } else {
        TakeCoreReaches(s, pid, wish, s.core[c], 0, NoUpdt, 0);
        var b := TakeCore(s, pid, wish, s.core[c], 0, NoUpdt, 0);
        var count1 := if Got(b.code) then count - b.count else count;
        TakeArrayReaches(b.state, pid, wish, list, i + 1, count1, s.core[c], Merged(code, b.code));
        Chain(s, b.state, TakeArray(b.state, pid, wish, list, i + 1, count1, s.core[c], Merged(code, b.code)).state, pid);
      }
    }
  }

  lemma {:induction false} ReclaimCpusReaches(s: State, pid: Pid, count: int, cores: nat, core: nat, code: Code)
    requires |s.core| == |s.cpus|
    ensures Reaches(s, ReclaimCpus(s, pid, count, cores, core, code).0, pid)
    decreases cores - core
  {
    hide Reaches, TakeCore;
    Stays(s, pid);
    if count > 0 && core < cores {
      TakeCoreReaches(s, pid, Reclaiming, core, 0, NoUpdt, 0);
      var b := TakeCore(s, pid, Reclaiming, core, 0, NoUpdt, 0);
      var count1 := if Got(b.code) then count - b.count else count;
      ReclaimCpusReaches(b.state, pid, count1, cores, core + 1, Best(code, b.code));
      Chain(s, b.state, ReclaimCpus(b.state, pid, count1, cores, core + 1, Best(code, b.code)).0, pid);
    }
  }

  lemma BorrowReaches(s: State, pid: Pid, wanted: int, list: seq<nat>, spread: bool, freeNodes: State -> seq<nat>)
    requires |s.core| == |s.cpus| && InTable(s, list)
    ensures Reaches(s, BorrowWanted(s, pid, wanted, list, spread, freeNodes).0, pid)
  {
    hide Reaches, TakeArray;
    TakeArrayReaches(s, pid, Borrowing, list, 0, wanted, -1, NoUpdt);
    var b := TakeArray(s, pid, Borrowing, list, 0, wanted, -1, NoUpdt);
    if spread && b.count > 0 && InTable(b.state, freeNodes(b.state)) {
      TakeArrayReaches(b.state, pid, Borrowing, freeNodes(b.state), 0, b.count, -1, NoUpdt);
      Chain(s, b.state, TakeArray(b.state, pid, Borrowing, freeNodes(b.state), 0, b.count, -1, NoUpdt).state, pid);
    }
  }

  lemma {:induction false} AskEachReaches(s: State, pid: Pid, list: seq<nat>, i: nat, code: Code)
    requires |s.core| == |s.cpus| && InTable(s, list)
    ensures Reaches(s, AskEach(s, pid, list, i, code).0, pid)
    decreases |list| - i
  {
    hide Reaches;
    Stays(s, pid);
    if i < |list| {
      var c := list[i];
      var t := Put(s, c, s.cpus[c].(requests := s.cpus[c].requests + [pid]));
      QueueEdits(s, pid, c, s.cpus[c].requests + [pid], s.petitions);
      AskEachReaches(t, pid, list, i + 1, Noted);
      AskEachReaches(s, pid, list, i + 1, code);
      Chain(s, t, AskEach(t, pid, list, i + 1, Noted).0, pid);
    }
  }

  lemma AcquireReaches(s: State, pid: Pid, counted: bool, wanted: int, list: seq<nat>)
    requires |s.core| == |s.cpus| && InTable(s, list)
    ensures Reaches(s, AcquireNcpus(s, pid, counted, wanted, list).0, pid)
  {
    hide Reaches, TakeArray, Select, AskEach, Posted;
    var l1, l2, l3 := Select(s, pid, list, OwnedIdle), Select(s, pid, list, OwnedInUse), Select(s, pid, list, NotOwned);
    var a := TakeArray(s, pid, Acquiring, l1, 0, wanted, -1, NoUpdt);
    var b := TakeArray(a.state, pid, Acquiring, l2, 0, a.count, -1, NoUpdt);
    var d := TakeArray(b.state, pid, Borrowing, l3, 0, b.count, -1, NoUpdt);
    TakeArrayReaches(s, pid, Acquiring, l1, 0, wanted, -1, NoUpdt);
    TakeArrayReaches(a.state, pid, Acquiring, l2, 0, a.count, -1, NoUpdt);
    TakeArrayReaches(b.state, pid, Borrowing, l3, 0, b.count, -1, NoUpdt);
    Chain(s, a.state, b.state, pid);
    Chain(s, b.state, d.state, pid);
    var code := Merged(Merged(a.code, b.code), d.code);
    var t := AcquireNcpus(s, pid, counted, wanted, list).0;
    if s.queues {
      if !counted {
        AskEachReaches(d.state, pid, list, 0, code);
        Chain(s, d.state, t, pid);
      } else if d.count > 0 {
        One(d.state, pid, Repost(t.petitions));
        Chain(s, d.state, t, pid);
      }
    }
  }

  lemma {:induction false} ReturnAllReaches(s: State, pid: Pid, code: Code, c: nat)
    requires |s.core| == |s.cpus|
    ensures Reaches(s, ReturnAll(s, pid, code, c).0, pid)
    decreases |s.cpus| - c
  {
    hide Reaches, ReturnCpu;
    Stays(s, pid);
    if c < |s.cpus| {
      OnCpu(s, pid, c);
      if c in s.occupied {
        var (t, local) := ReturnCpu(s, pid, c);
        var code1 := if local == Success && code == NoUpdt then Success else code;
        ReturnAllReaches(t, pid, code1, c + 1);
        Chain(s, t, ReturnAll(t, pid, code1, c + 1).0, pid);
      } else {
        ReturnAllReaches(s, pid, code, c + 1);
      }
    }
  }

  lemma {:induction false} ReturnEachReaches(s: State, pid: Pid, todo: set<nat>, code: Code, c: nat)
    requires |s.core| == |s.cpus|
    ensures Reaches(s, ReturnEach(s, pid, todo, code, c).0, pid)
    decreases |s.cpus| - c
  {
    hide Reaches, ReturnCpu;
    Stays(s, pid);
    if c < |s.cpus| {
      OnCpu(s, pid, c);
      if c in todo {
        var (t, local) := ReturnCpu(s, pid, c);
        var code1 := if code.IsError() then code else local;
        ReturnEachReaches(t, pid, todo, code1, c + 1);
        Chain(s, t, ReturnEach(t, pid, todo, code1, c + 1).0, pid);
      } else {
        ReturnEachReaches(s, pid, todo, code, c + 1);
      }
    }
  }

  lemma {:induction false} ReturnAsyncReaches(s: State, pid: Pid, mask: set<nat>, c: nat)
    requires |s.core| == |s.cpus|
    ensures Reaches(s, ReturnAsyncMask(s, pid, mask, c), pid)
    decreases |s.cpus| - c
  {
    hide Reaches, CpuinfoSpec.ReturnAsync;
    Stays(s, pid);
    if c < |s.cpus| {
      OnCpu(s, pid, c);
      var t := if c in mask then CpuinfoSpec.ReturnAsync(s, pid, c) else s;
      ReturnAsyncReaches(t, pid, mask, c + 1);
      Chain(s, t, ReturnAsyncMask(t, pid, mask, c + 1), pid);
    }
  }

  lemma {:induction false} WithdrawReaches(s: State, pid: Pid, c: nat)
    requires |s.core| == |s.cpus|
    ensures Reaches(s, WithdrawFrom(s, pid, c), pid)
    decreases |s.cpus| - c
  {
    hide Reaches, Without;
    Stays(s, pid);
    if c < |s.cpus| {
      QueueEdits(s, pid, c, Without(s.cpus[c].requests, pid), s.petitions);
      var t := WithdrawCpu(s, pid, c);
      WithdrawReaches(t, pid, c + 1);
      Chain(s, t, WithdrawFrom(t, pid, c + 1), pid);
    }
  }

  lemma WithdrawnReaches(s: State, pid: Pid)
    requires |s.core| == |s.cpus|
    ensures Reaches(s, Withdrawn(s, pid), pid)
  {
    hide Reaches, WithdrawFrom, OthersPetitions;
    Stays(s, pid);
    if s.queues {
      var t := s.(petitions := OthersPetitions(s.petitions, pid));
      One(s, pid, Repost(t.petitions));
      WithdrawReaches(t, pid, 0);
      Chain(s, t, WithdrawFrom(t, pid, 0), pid);
    }
  }

  lemma {:induction false} RemoveFromReaches(s: State, pid: Pid, c: nat)
    requires |s.core| == |s.cpus|
    ensures Reaches(s, RemoveFrom(s, pid, c), pid)
    decreases |s.cpus| - c
  {
    hide Reaches, Without;
    Stays(s, pid);
    if c < |s.cpus| {
      QueueEdits(s, pid, c, Without(s.cpus[c].requests, pid), s.petitions);
      var t := Put(s, c, s.cpus[c].(requests := Without(s.cpus[c].requests, pid)));
      RemoveFromReaches(t, pid, c + 1);
      Chain(s, t, RemoveFrom(t, pid, c + 1), pid);
    }
  }

  lemma RemoveReaches(s: State, pid: Pid)
    requires |s.core| == |s.cpus|
    ensures Reaches(s, RemoveRequests(s, pid), pid)
  {
    hide Reaches, RemoveFrom, OthersPetitions;
    Stays(s, pid);
    if s.queues {
      var t := s.(petitions := OthersPetitions(s.petitions, pid));
      One(s, pid, Repost(t.petitions));
      RemoveFromReaches(t, pid, 0);
      Chain(s, t, RemoveFrom(t, pid, 0), pid);
    }
  }

  lemma {:induction false} LeaveReaches(s: State, pid: Pid, public: bool, c: nat)
    requires |s.core| == |s.cpus|
    ensures Reaches(s, LeaveFrom(s, pid, public, c), pid, true)
    decreases |s.cpus| - c
  {
    hide Reaches, LeaveCpu;
    Stays(s, pid, true);
    if c < |s.cpus| {
      OnCpu(s, pid, c);
      var t := LeaveCpu(s, pid, public, c);
      LeaveReaches(t, pid, public, c + 1);
      Chain(s, t, LeaveFrom(t, pid, public, c + 1), pid, true);
    }
  }

  lemma DisableLentReaches(s: State, pid: Pid, c: nat)
    requires Has(s, c)
    ensures Reaches(s, DisableLent(s, pid, c), pid)
  {
    hide Reaches, LendCpu;
    OnCpu(s, pid, c);
    Notified(LendCpu(s, pid, c), pid, Disable, pid, c);
    Chain(s, LendCpu(s, pid, c), DisableLent(s, pid, c), pid);
  }

  lemma {:induction false} ResetReaches(s: State, pid: Pid, c: nat)
    requires |s.core| == |s.cpus|
    ensures Reaches(s, ResetFrom(s, pid, c), pid)
    decreases |s.cpus| - c
  {
    hide Reaches, LendCpu, ReclaimCpu;
    Stays(s, pid);
    if c < |s.cpus| {
      OnCpu(s, pid, c);
      DisableLentReaches(s, pid, c);
      var t := ResetCpu(s, pid, c);
      ResetReaches(t, pid, c + 1);
      Chain(s, t, ResetFrom(t, pid, c + 1), pid);
    }
  }

  lemma {:induction false} LendOwnedReaches(s: State, pid: Pid, max: nat, c: nat, owned: nat, guested: seq<nat>)
    requires |s.core| == |s.cpus| && InTable(s, guested)
    ensures Reaches(s, LendOwned(s, pid, max, c, owned, guested).state, pid)
    decreases |s.cpus| - c
  {
    hide Reaches, DisableLent;
    Stays(s, pid);
    if c < |s.cpus| {
      DisableLentReaches(s, pid, c);
      if s.cpus[c].owner == pid {
        var t := if max < owned + 1 then DisableLent(s, pid, c) else s;
        LendOwnedReaches(t, pid, max, c + 1, owned + 1, guested);
        Chain(s, t, LendOwned(t, pid, max, c + 1, owned + 1, guested).state, pid);
      } else if s.cpus[c].guest == pid {
        LendOwnedReaches(s, pid, max, c + 1, owned, guested + [c]);
      } else {
        LendOwnedReaches(s, pid, max, c + 1, owned, guested);
      }
    }
  }

  lemma {:induction false} LendGuestedReaches(s: State, pid: Pid, max: nat, owned: nat, guested: seq<nat>, i: nat)
    requires |s.core| == |s.cpus| && InTable(s, guested)
    ensures Reaches(s, LendGuested(s, pid, max, owned, guested, i), pid)
    decreases |guested| - i
  {
    hide Reaches, DisableLent;
    Stays(s, pid);
    if i < |guested| {
      DisableLentReaches(s, pid, guested[i]);
      var t := if max < owned + i + 1 then DisableLent(s, pid, guested[i]) else s;
      LendGuestedReaches(t, pid, max, owned, guested, i + 1);
      Chain(s, t, LendGuested(t, pid, max, owned, guested, i + 1), pid);
    }
  }
}
