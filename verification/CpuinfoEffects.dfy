/** Order of service, round trips and priorities of single operations of the CPU table (src/LB_comm/shmem_cpuinfo.c). */
module CpuinfoEffects {
  import opened Codes
  import opened CpuinfoSpec
  import opened CpuinfoActs
  import opened CpuinfoOps
  import opened CpuinfoOccupied

  // ---------------------------------------------------------------- requests are served in order

  /** guest was the first eligible process of the queue of c, at position i, and leaves it. */
  ghost predicate ServesRequest(s: State, t: State, c: nat, guest: nat, i: nat)
    requires Has(s, c) && SameTopology(s, t)
  {
    var q := s.cpus[c].requests;
    && i < |q| && guest == q[i] && t.cpus[c].requests == q[..i] + q[i + 1..] && t.petitions == s.petitions
    && CoreIsEligible(s, q[i], c) && forall k :: 0 <= k < i ==> !CoreIsEligible(s, q[k], c)
  }

  /** guest had the first petition that allows c, at position i, and is owed one CPU less. */
  ghost predicate ServesPetition(s: State, t: State, c: nat, guest: nat, i: nat)
    requires Has(s, c) && SameTopology(s, t)
  {
    && i < |s.petitions| && guest == s.petitions[i].pid && c in s.petitions[i].allowed && t.cpus == s.cpus
    && t.petitions == Granted(s.petitions, i)
    && forall k :: 0 <= k < i ==> c !in s.petitions[k].allowed || !CoreIsEligible(s, s.petitions[k].pid, c)
  }

  ghost predicate NobodyWaits(s: State, c: nat)
    requires Has(s, c)
  {
    && (forall k :: 0 <= k < |s.cpus[c].requests| ==> !CoreIsEligible(s, s.cpus[c].requests[k], c))
    && forall k :: 0 <= k < |s.petitions| ==> c !in s.petitions[k].allowed || !CoreIsEligible(s, s.petitions[k].pid, c)
  }

  /** In asynchronous mode a freed CPU goes to the first eligible process in its queue, else to the first
      petition that allows it, and to nobody only when nobody eligible waits for it. */
  lemma FirstInLine(s: State, c: nat)
    requires Has(s, c) && s.queues && s.cpus[c].state != Busy
    ensures var (guest, t) := FindNewGuest(s, c);
      || (guest == NOBODY && t == s && NobodyWaits(s, c))
      || (exists i: nat :: ServesRequest(s, t, c, guest, i))
      || (exists i: nat :: ServesPetition(s, t, c, guest, i))
  {
    hide CoreIsEligible, Granted;
    var i, j := FirstRequest(s, c, 0), FirstPetition(s, c, 0);
    var (guest, t) := FindNewGuest(s, c);
    hide FirstRequest, FirstPetition;
    if i < |s.cpus[c].requests| {
      assert ServesRequest(s, t, c, guest, i);
    } else if j < |s.petitions| {
      assert ServesPetition(s, t, c, guest, j);
    }
  }

  // ---------------------------------------------------------------- round trips

  ghost predicate InUse(s: State, p: Pid, c: nat) {
    IndexExact(s) && !s.queues && Has(s, c) && c !in s.free &&
    s.cpus[c].owner == p && s.cpus[c].guest == p && s.cpus[c].state == Busy
  }

  /** Lending a CPU in use makes it idle and free. */
  lemma LendOwn(s: State, p: Pid, c: nat)
    requires InUse(s, p, c)
    ensures LendCpu(s, p, c) == Put(s, c, s.cpus[c].(state := Lent, guest := NOBODY)).(free := s.free + {c})
  {
    assert Indexed(s.cpus[c], c in s.occupied, s.queues);
    hide IndexExact;
    assert s.occupied - {c} == s.occupied;
  }

  function Logged(s: State, tasks: seq<Task>): State {
    s.(tasks := s.tasks + tasks)
  }

  /** Lend and reclaim: the table is back as it was. */
  lemma LendThenReclaim(s: State, p: Pid, c: nat)
    requires InUse(s, p, c)
    ensures ReclaimCpu(LendCpu(s, p, c), p, c) == (Logged(s, [Task(Enable, p, c)]), Success)
  {
    LendOwn(s, p, c);
    hide LendCpu, IndexExact;
    var t := LendCpu(s, p, c);
    assert t.free - {c} == s.free;
    assert t.cpus[c := s.cpus[c]] == s.cpus;
  }

  /** The whole cycle of a CPU: its owner lends it, q borrows it, the owner reclaims it, q returns it. The
      table is back as it was, and the tasks tell q to start, q to stop and the owner to start, q to stop. */
  lemma HandoverCycle(s: State, p: Pid, q: Pid, c: nat)
    requires InUse(s, p, c) && p != q
    ensures var (s2, borrowed) := BorrowCpu(LendCpu(s, p, c), q, c);
      && borrowed == Success && Has(s2, c)
      && var (s3, reclaimed) := ReclaimCpu(s2, p, c);
      && reclaimed == Noted && Has(s3, c)
      && ReturnCpu(s3, q, c) ==
         (Logged(s, [Task(Enable, q, c), Task(Disable, q, c), Task(Enable, p, c), Task(Disable, q, c)]), Success)
  {
    LendOwn(s, p, c);
    assert c !in s.occupied by { assert Indexed(s.cpus[c], c in s.occupied, s.queues); }
    assert !s.smt;
    hide LendCpu, IndexExact;
    var s1 := LendCpu(s, p, c);
    var cpu := s.cpus[c];
    var s2 := BorrowCpu(s1, q, c).0;
    assert s2.cpus == s.cpus[c := cpu.(state := Lent, guest := q)];
    assert s2.free == s.free && s2.occupied == s.occupied + {c};
    var s3 := ReclaimCpu(s2, p, c).0;
    assert s3.cpus == s.cpus[c := cpu.(guest := q)];
    var s4 := ReturnCpu(s3, q, c).0;
    assert s4.cpus == s.cpus;
    assert s4.occupied == s.occupied;
    assert s4.tasks == s.tasks + [Task(Enable, q, c), Task(Disable, q, c), Task(Enable, p, c), Task(Disable, q, c)];
  }

  // ---------------------------------------------------------------- acquire: own CPUs first

  lemma AttemptAlone(s: State, pid: Pid, wish: Wish, c: nat, d: nat)
    requires Has(s, c) && d < |s.cpus| && d != c
    ensures Attempt(s, pid, wish, c).0.cpus[d] == s.cpus[d]
  {
    hide UpdatedOccupied, CoreIsEligible;
  }

  /** Taking the CPUs of a core leaves the other cores alone, and counts no CPU twice. */
  lemma {:induction false} TakeCoreAlone(s: State, pid: Pid, wish: Wish, core: nat, c: nat, code: Code, count: int, d: nat)
    requires |s.core| == |s.cpus| && d < |s.cpus|
    ensures var r := TakeCore(s, pid, wish, core, c, code, count);
      r.count >= count && (s.core[d] != core ==> r.state.cpus[d] == s.cpus[d])
    decreases |s.cpus| - c
  {
    hide Attempt;
    if c < |s.cpus| && s.core[c] == core {
      if s.core[d] != core {
        AttemptAlone(s, pid, wish, c, d);
      }
      var (t, local) := Attempt(s, pid, wish, c);
      TakeCoreAlone(t, pid, wish, core, c + 1, Merged(code, local), count + 1, d);
      TakeCoreAlone(t, pid, wish, core, c + 1, code, count, d);
    } else if c < |s.cpus| {
      TakeCoreAlone(s, pid, wish, core, c + 1, code, count, d);
    }
  }

  /** Taking the CPUs of a list does not reach CPU d: without SMT it is not listed, with SMT no CPU of its core is. */
  ghost predicate Unreached(s: State, list: seq<nat>, d: nat)
    requires |s.core| == |s.cpus| && InTable(s, list) && d < |s.cpus|
  {
    forall k :: 0 <= k < |list| ==> if s.smt then !SameCore(s.core, list[k], d) else list[k] != d
  }

  lemma {:induction false} TakeArrayAlone(s: State, pid: Pid, wish: Wish, list: seq<nat>, i: nat, count: int,
      prev: int, code: Code, d: nat)
    requires |s.core| == |s.cpus| && InTable(s, list) && d < |s.cpus|
    ensures var r := TakeArray(s, pid, wish, list, i, count, prev, code);
      r.count <= count && (Unreached(s, list, d) ==> r.state.cpus[d] == s.cpus[d])
    decreases |list| - i
  {
    if count > 0 && i < |list| {
      var c := list[i];
      hide Attempt, TakeCore;
      if !s.smt {
        if c != d {
          AttemptAlone(s, pid, wish, c, d);
        }
        var (t, local) := Attempt(s, pid, wish, c);
        TakeArrayAlone(t, pid, wish, list, i + 1, if Got(local) then count - 1 else count, prev, Merged(code, local), d);
      } else if prev == s.core[c] {
        TakeArrayAlone(s, pid, wish, list, i + 1, count, prev, code, d);
      } else {
        TakeCoreAlone(s, pid, wish, s.core[c], 0, NoUpdt, 0, d);
        var r := TakeCore(s, pid, wish, s.core[c], 0, NoUpdt, 0);
        TakeArrayAlone(r.state, pid, wish, list, i + 1, if Got(r.code) then count - r.count else count, s.core[c],
          Merged(code, r.code), d);
      }
    }
  }

  /** An owned CPU that acquiring makes busy. */
  predicate Due(cpu: Cpu, pid: Pid) {
    cpu.owner == pid && (cpu.guest == pid ==> cpu.state == Busy)
  }

  /** With SMT a core belongs to pid as a whole or not at all. */
  ghost predicate OwnsCores(s: State, pid: Pid) {
    |s.core| == |s.cpus| && (s.smt ==> forall c, d :: 0 <= c < |s.cpus| && 0 <= d < |s.cpus| && SameCore(s.core, c, d) ==>
      (s.cpus[c].owner == pid <==> s.cpus[d].owner == pid))
  }

  lemma AcquireDue(s: State, pid: Pid, c: nat, d: nat)
    requires Has(s, c) && d < |s.cpus| && Due(s.cpus[d], pid)
    ensures var b := AcquireCpu(s, pid, c).0.cpus[d];
      Due(b, pid) && (d == c || s.cpus[d].state == Busy ==> b.state == Busy)
  {
    hide UpdatedOccupied, CoreIsEligible;
  }

  lemma AcquireOwners(s: State, pid: Pid, c: nat)
    requires Has(s, c)
    ensures var (t, code) := AcquireCpu(s, pid, c);
      && (forall d :: 0 <= d < |s.cpus| ==> t.cpus[d].owner == s.cpus[d].owner)
      && (OwnsCores(s, pid) ==> OwnsCores(t, pid))
      && (s.cpus[c].owner == pid ==> Got(code) || t.cpus[c].guest == pid)
  {
    hide UpdatedOccupied, CoreIsEligible;
    var t := AcquireCpu(s, pid, c).0;
    assert forall d :: 0 <= d < |s.cpus| ==> t.cpus[d].owner == s.cpus[d].owner;
    hide AcquireCpu;
  }

  /** Acquiring a core of pid never stops halfway, so every due CPU of the core ends busy. */
  lemma {:induction false} OwnCoreReclaims(s: State, pid: Pid, core: nat, c: nat, code: Code, count: int, d: nat)
    requires OwnsCores(s, pid) && d < |s.cpus| && Due(s.cpus[d], pid)
    ensures var r := TakeCore(s, pid, Acquiring, core, c, code, count);
      && Due(r.state.cpus[d], pid) && (s.cpus[d].state == Busy ==> r.state.cpus[d].state == Busy)
      && OwnsCores(r.state, pid)
      && (s.smt && s.core[d] == core && c <= d ==> r.state.cpus[d].state == Busy)
    decreases |s.cpus| - c
  {
    if c < |s.cpus| && s.core[c] == core {
      assert s.smt && s.core[d] == core ==> SameCore(s.core, c, d);
      AcquireDue(s, pid, c, d);
      AcquireOwners(s, pid, c);
      var (t, local) := AcquireCpu(s, pid, c);
      hide AcquireCpu, OwnsCores, Due;
      OwnCoreReclaims(t, pid, core, c + 1, Merged(code, local), count + 1, d);
      OwnCoreReclaims(t, pid, core, c + 1, code, count, d);
    } else if c < |s.cpus| {
      OwnCoreReclaims(s, pid, core, c + 1, code, count, d);
    }
  }

  /** Acquiring a core stops at CPU e: pid neither owns it, nor uses it, nor can have it, nor leave a request on it. */
  ghost predicate Blocks(s: State, pid: Pid, e: nat)
    requires Has(s, e)
  {
    var cpu := s.cpus[e];
    && cpu.owner != pid && cpu.guest != pid
    && !(cpu.guest == NOBODY && cpu.state == Lent && CoreIsEligible(s, pid, e))
    && (s.queues ==> |cpu.requests| >= REQUESTS_CAPACITY)
  }

  /** CPUs of the core between from and to block it. */
  ghost predicate Blocked(s: State, pid: Pid, core: nat, from: nat, to: nat)
    requires |s.core| == |s.cpus|
  {
    exists e :: from <= e < to && e < |s.cpus| && s.core[e] == core && Blocks(s, pid, e)
  }

  /** Acquiring a CPU changes nothing about who may enter its core. */
  lemma AcquireKeepsEligible(s: State, pid: Pid, c: nat, e: nat)
    requires s.smt && Has(s, c) && e < |s.cpus| && e != c
    ensures Blocks(AcquireCpu(s, pid, c).0, pid, e) <==> Blocks(s, pid, e)
  {
    var t := AcquireCpu(s, pid, c).0;
    AcquireAdmits(s, pid, c);
    AttemptAlone(s, pid, Acquiring, c, e);
    forall d | 0 <= d < |s.cpus| ensures Admits(t.cpus[d], pid) <==> Admits(s.cpus[d], pid) {
      if d != c {
        AttemptAlone(s, pid, Acquiring, c, d);
      }
    }
    hide AcquireCpu, Admits;
  }

  lemma AcquireAdmits(s: State, pid: Pid, c: nat)
    requires s.smt && Has(s, c)
    ensures Admits(AcquireCpu(s, pid, c).0.cpus[c], pid) <==> Admits(s.cpus[c], pid)
    ensures Blocks(s, pid, c) <==> !Got(AcquireCpu(s, pid, c).1) && AcquireCpu(s, pid, c).0.cpus[c].guest != pid
    ensures s.cpus[c].owner == pid && s.cpus[c].guest != pid ==> AcquireCpu(s, pid, c).0.cpus[c].state == Busy
  {
    assert CoreIsEligible(s, pid, c) && SameCore(s.core, c, c) ==> Admits(s.cpus[c], pid);
    hide UpdatedOccupied, CoreIsEligible;
  }

  lemma BlockedOn(s: State, t: State, pid: Pid, core: nat, c: nat, d: nat)
    requires |s.core| == |s.cpus| && SameTopology(s, t) && c < d <= |s.cpus|
    requires forall e :: c < e < d ==> (Blocks(t, pid, e) <==> Blocks(s, pid, e))
    ensures Blocked(s, pid, core, c, d) <==> (s.core[c] == core && Blocks(s, pid, c)) || Blocked(t, pid, core, c + 1, d)
  {
    hide Blocks;
  }

  /** Acquiring a core of pid and others reclaims an own CPU in use by another, or idle, exactly when no CPU before it in
      the core blocks; one that was busy already stays so. */
  lemma {:induction false} CoreReclaims(s: State, pid: Pid, core: nat, c: nat, code: Code, count: int, d: nat)
    requires s.smt && |s.core| == |s.cpus| && c <= d < |s.cpus| && s.core[d] == core
    requires s.cpus[d].owner == pid && s.cpus[d].guest != pid
    ensures TakeCore(s, pid, Acquiring, core, c, code, count).state.cpus[d].state == Busy <==>
      s.cpus[d].state == Busy || !Blocked(s, pid, core, c, d)
    decreases |s.cpus| - c
  {
    if s.core[c] != core {
      if c < d {
        BlockedOn(s, s, pid, core, c, d);
        CoreReclaims(s, pid, core, c + 1, code, count, d);
      }
    } else {
      var (t, local) := AcquireCpu(s, pid, c);
      AcquireAdmits(s, pid, c);
      hide AcquireCpu, Blocks, Blocked;
      if c < d {
        forall e | c < e < d ensures Blocks(t, pid, e) <==> Blocks(s, pid, e) {
          AcquireKeepsEligible(s, pid, c, e);
        }
        BlockedOn(s, t, pid, core, c, d);
        AttemptAlone(s, pid, Acquiring, c, d);
        CoreReclaims(t, pid, core, c + 1, Merged(code, local), count + 1, d);
        CoreReclaims(t, pid, core, c + 1, code, count, d);
      } else {
        TakenStays(t, pid, core, c + 1, Merged(code, local), count + 1, d);
        TakenStays(t, pid, core, c + 1, code, count, d);
        NothingBefore(s, pid, core, d);
      }
    }
  }

  lemma NothingBefore(s: State, pid: Pid, core: nat, d: nat)
    requires |s.core| == |s.cpus|
    ensures !Blocked(s, pid, core, d, d)
  {
  }

  lemma {:induction false} TakenStays(s: State, pid: Pid, core: nat, c: nat, code: Code, count: int, d: nat)
    requires |s.core| == |s.cpus| && d < c && d < |s.cpus|
    ensures TakeCore(s, pid, Acquiring, core, c, code, count).state.cpus[d] == s.cpus[d]
    decreases |s.cpus| - c
  {
    hide AcquireCpu;
    if c < |s.cpus| && s.core[c] == core {
      AttemptAlone(s, pid, Acquiring, c, d);
      var (t, local) := AcquireCpu(s, pid, c);
      TakenStays(t, pid, core, c + 1, Merged(code, local), count + 1, d);
      TakenStays(t, pid, core, c + 1, code, count, d);
    } else if c < |s.cpus| {
      TakenStays(s, pid, core, c + 1, code, count, d);
    }
  }

  /** If CPUs are still wanted at the end, every due CPU of the list has been reclaimed. */
  lemma {:induction false} AcquireReclaims(s: State, pid: Pid, list: seq<nat>, i: nat, count: int, prev: int,
      code: Code, d: nat)
    requires OwnsCores(s, pid) && InTable(s, list) && d < |s.cpus| && Due(s.cpus[d], pid)
    requires s.smt && prev == s.core[d] ==> s.cpus[d].state == Busy
    ensures var r := TakeArray(s, pid, Acquiring, list, i, count, prev, code);
      && Due(r.state.cpus[d], pid) && (s.cpus[d].state == Busy ==> r.state.cpus[d].state == Busy) && OwnsCores(r.state, pid)
      && (r.count > 0 && (exists k :: i <= k < |list| && list[k] == d) ==> r.state.cpus[d].state == Busy)
    decreases |list| - i
  {
    if count > 0 && i < |list| {
      var c := list[i];
      hide AcquireCpu, TakeCore, OwnsCores, Due;
      if !s.smt {
        AcquireDue(s, pid, c, d);
        AcquireOwners(s, pid, c);
        var (t, local) := AcquireCpu(s, pid, c);
        AcquireReclaims(t, pid, list, i + 1, if Got(local) then count - 1 else count, prev, Merged(code, local), d);
      } else if prev == s.core[c] {
        AcquireReclaims(s, pid, list, i + 1, count, prev, code, d);
      } else {
        OwnCoreReclaims(s, pid, s.core[c], 0, NoUpdt, 0, d);
        var r := TakeCore(s, pid, Acquiring, s.core[c], 0, NoUpdt, 0);
        AcquireReclaims(r.state, pid, list, i + 1, if Got(r.code) then count - r.count else count, s.core[c],
          Merged(code, r.code), d);
      }
    }
  }

  lemma {:induction false} SelectedFirst(s: State, pid: Pid, list: seq<nat>, kind: Kind, n: nat, d: nat)
    requires InTable(s, list) && d < |s.cpus| && n <= |list|
    ensures d in SelectFirst(s, pid, list, kind, n) <==>
      OfKind(s.cpus[d], pid, kind) && exists k :: 0 <= k < n && list[k] == d
  {
    if n > 0 {
      SelectedFirst(s, pid, list, kind, n - 1, d);
    }
  }

  lemma Selected(s: State, pid: Pid, list: seq<nat>, kind: Kind, d: nat)
    requires InTable(s, list) && d < |s.cpus|
    ensures d in Select(s, pid, list, kind) <==> d in list && OfKind(s.cpus[d], pid, kind)
  {
    SelectedFirst(s, pid, list, kind, |list|, d);
    hide SelectFirst;
  }

  /** The CPUs selected as owned do not reach those of others, nor the other way round. */
  lemma SelectedApart(s: State, pid: Pid, list: seq<nat>, kind: Kind, d: nat)
    requires OwnsCores(s, pid) && InTable(s, list) && d < |s.cpus| && (s.cpus[d].owner == pid <==> kind.NotOwned?)
    ensures Unreached(s, Select(s, pid, list, kind), d)
  {
    var r := Select(s, pid, list, kind);
    forall k | 0 <= k < |r| ensures s.cpus[r[k]].owner == pid <==> !kind.NotOwned? {
      Selected(s, pid, list, kind, r[k]);
    }
    hide Select;
  }

  /** The table once pid has gone for its own CPUs, and how many CPUs it still wants. */
  function OwnTaken(s: State, pid: Pid, wanted: int, list: seq<nat>): (r: Batch)
    requires |s.core| == |s.cpus| && InTable(s, list)
    ensures SameTopology(s, r.state)
  {
    var a := TakeArray(s, pid, Acquiring, Select(s, pid, list, OwnedIdle), 0, wanted, -1, NoUpdt);
    TakeArray(a.state, pid, Acquiring, Select(s, pid, list, OwnedInUse), 0, a.count, -1, NoUpdt)
  }

  lemma UnreachedOn(s: State, t: State, list: seq<nat>, d: nat)
    requires SameTopology(s, t) && |s.core| == |s.cpus| && InTable(s, list) && d < |s.cpus| && Unreached(s, list, d)
    ensures InTable(t, list) && Unreached(t, list, d)
  {
  }

  lemma OwnTakenOthers(s: State, pid: Pid, wanted: int, list: seq<nat>, d: nat)
    requires OwnsCores(s, pid) && InTable(s, list) && d < |s.cpus| && s.cpus[d].owner != pid
    ensures OwnTaken(s, pid, wanted, list).state.cpus[d] == s.cpus[d]
  {
    hide TakeArray, Select;
    SelectedApart(s, pid, list, OwnedIdle, d);
    SelectedApart(s, pid, list, OwnedInUse, d);
    var l1, l2 := Select(s, pid, list, OwnedIdle), Select(s, pid, list, OwnedInUse);
    var a := TakeArray(s, pid, Acquiring, l1, 0, wanted, -1, NoUpdt);
    TakeArrayAlone(s, pid, Acquiring, l1, 0, wanted, -1, NoUpdt, d);
    UnreachedOn(s, a.state, l2, d);
    hide Unreached;
    TakeArrayAlone(a.state, pid, Acquiring, l2, 0, a.count, -1, NoUpdt, d);
  }

  lemma OwnTakenReclaims(s: State, pid: Pid, wanted: int, list: seq<nat>, d: nat)
    requires OwnsCores(s, pid) && InTable(s, list) && d < |s.cpus| && d in list
    requires s.cpus[d].owner == pid && s.cpus[d].guest != pid && s.cpus[d].state != CpuState.Disabled
    requires OwnTaken(s, pid, wanted, list).count > 0
    ensures OwnTaken(s, pid, wanted, list).state.cpus[d].state == Busy
  {
    assert |s.core| == |s.cpus|;
    hide TakeArray, Select, OwnsCores;
    Selected(s, pid, list, OwnedIdle, d);
    Selected(s, pid, list, OwnedInUse, d);
    var l1, l2 := Select(s, pid, list, OwnedIdle), Select(s, pid, list, OwnedInUse);
    var a := TakeArray(s, pid, Acquiring, l1, 0, wanted, -1, NoUpdt);
    AcquireReclaims(s, pid, l1, 0, wanted, -1, NoUpdt, d);
    AcquireReclaims(a.state, pid, l2, 0, a.count, -1, NoUpdt, d);
    TakeArrayAlone(a.state, pid, Acquiring, l2, 0, a.count, -1, NoUpdt, d);
  }

  lemma {:induction false} AskingIsQuiet(s: State, pid: Pid, list: seq<nat>, i: nat, code: Code, d: nat)
    requires |s.core| == |s.cpus| && InTable(s, list) && d < |s.cpus|
    ensures SameRole(s.cpus[d], AskEach(s, pid, list, i, code).0.cpus[d])
    decreases |list| - i
  {
    if i < |list| {
      var cpu := s.cpus[list[i]];
      if (cpu.state == CpuState.Disabled || (cpu.owner != pid && cpu.guest != pid)) &&
         pid !in cpu.requests && |cpu.requests| < REQUESTS_CAPACITY
      {
        AskingIsQuiet(Put(s, list[i], cpu.(requests := cpu.requests + [pid])), pid, list, i + 1, Noted, d);
      } else {
        AskingIsQuiet(s, pid, list, i + 1, code, d);
      }
    }
  }

  /** Only the requests of the CPUs can differ once the owned CPUs are taken and the others borrowed. */
  lemma AcquireEnds(s: State, pid: Pid, counted: bool, wanted: int, list: seq<nat>, d: nat)
    requires |s.core| == |s.cpus| && InTable(s, list) && d < |s.cpus|
    ensures var b := OwnTaken(s, pid, wanted, list);
      SameRole(TakeArray(b.state, pid, Borrowing, Select(s, pid, list, NotOwned), 0, b.count, -1, NoUpdt).state.cpus[d],
               AcquireNcpus(s, pid, counted, wanted, list).0.cpus[d])
  {
    var b := OwnTaken(s, pid, wanted, list);
    var t := TakeArray(b.state, pid, Borrowing, Select(s, pid, list, NotOwned), 0, b.count, -1, NoUpdt).state;
    hide TakeArray, Select, AskEach, Posted;
    if s.queues && !counted {
      forall code: Code ensures SameRole(t.cpus[d], AskEach(t, pid, list, 0, code).0.cpus[d]) {
        AskingIsQuiet(t, pid, list, 0, code, d);
      }
    }
  }

  /** A process only takes a CPU that it does not own once it has reclaimed all of its own CPUs in the list; polling
      or asynchronous, and with SMT when cores belong to one process each. */
  lemma OwnCpusFirst(s: State, pid: Pid, counted: bool, wanted: int, list: seq<nat>, c: nat, d: nat)
    requires OwnsCores(s, pid) && InTable(s, list) && c < |s.cpus| && d < |s.cpus|
    requires s.cpus[c].owner != pid && AcquireNcpus(s, pid, counted, wanted, list).0.cpus[c].guest != s.cpus[c].guest
    requires d in list && s.cpus[d].owner == pid && s.cpus[d].guest != pid && s.cpus[d].state != CpuState.Disabled
    ensures AcquireNcpus(s, pid, counted, wanted, list).0.cpus[d].state == Busy
  {
    var b := OwnTaken(s, pid, wanted, list);
    var l3 := Select(s, pid, list, NotOwned);
    AcquireEnds(s, pid, counted, wanted, list, c);
    AcquireEnds(s, pid, counted, wanted, list, d);
    OwnTakenOthers(s, pid, wanted, list, c);
    assert b.count > 0;
    hide TakeArray, Select, AcquireNcpus, OwnTaken;
    OwnTakenReclaims(s, pid, wanted, list, d);
    SelectedApart(s, pid, list, NotOwned, d);
    UnreachedOn(s, b.state, l3, d);
    TakeArrayAlone(b.state, pid, Borrowing, l3, 0, b.count, -1, NoUpdt, d);
  }

  /** CPUs that the petitions of pid for a set of CPUs ask for. */
  function Owed(q: seq<Petition>, n: nat, pid: Pid, allowed: set<nat>): nat
    requires n <= |q|
  {
    if n == 0 then 0
    else Owed(q, n - 1, pid, allowed) + (if q[n - 1].pid == pid && q[n - 1].allowed == allowed then q[n - 1].howmany else 0)
  }

  lemma {:induction false} OwedUpdate(q: seq<Petition>, i: nat, more: nat, n: nat, pid: Pid, allowed: set<nat>)
    requires i < |q| && n <= |q| && q[i].pid == pid && q[i].allowed == allowed
    ensures Owed(q[i := q[i].(howmany := q[i].howmany + more)], n, pid, allowed) == Owed(q, n, pid, allowed) + (if i < n then more else 0)
  {
    if n > 0 {
      OwedUpdate(q, i, more, n - 1, pid, allowed);
    }
  }

  lemma {:induction false} OwedPrefix(q: seq<Petition>, p: Petition, n: nat, pid: Pid, allowed: set<nat>)
    requires n <= |q|
    ensures Owed(q + [p], n, pid, allowed) == Owed(q, n, pid, allowed)
  {
    if n > 0 {
      OwedPrefix(q, p, n - 1, pid, allowed);
    }
  }

  /** Posting a petition adds exactly what is missing to what pid is owed, or fails when the queue is full. */
  lemma {:induction false} PostedIsOwed(q: seq<Petition>, p: Petition, i: nat)
    ensures var (r, code) := Posted(q, p, i);
      if code == Noted then Owed(r, |r|, p.pid, p.allowed) == Owed(q, |q|, p.pid, p.allowed) + p.howmany
      else code == ErrReqst && r == q && |q| >= PETITIONS_CAPACITY
    decreases |q| - i
  {
    if i >= |q| {
      OwedPrefix(q, p, |q|, p.pid, p.allowed);
    } else if q[i].pid == p.pid && q[i].allowed == p.allowed {
      OwedUpdate(q, i, p.howmany, |q|, p.pid, p.allowed);
    } else {
      PostedIsOwed(q, p, i + 1);
    }
  }
}
