/** What each operation of asynchronous LeWI obtains, queues and answers, measured on the table before and after it
    (src/LB_comm/shmem_lewi_async.c). */
module LewiAsyncBalance {
  import opened Codes
  import opened LewiQueue
  import opened LewiPop
  import opened LewiAsyncSpec
  import opened LewiAsyncRuns
  import opened LewiAsyncReplies

  /** The CPUs that process i has more in t. */
  function Gain(s: Shared, t: Shared, i: nat): int
    requires i < |s.procs| == |t.procs|
  {
    t.procs[i].current - s.procs[i].current
  }

  /** The CPUs that pid waits for more in t. */
  function Wait(s: Shared, t: Shared, pid: nat): int {
    Amount(t.reqs, pid) - Amount(s.reqs, pid)
  }

  /** The answer names the stored count. */
  ghost predicate Reports(t: Shared, r: Reply, pid: nat, i: nat) {
    i < |t.procs| && t.procs[i].pid == pid && r.newCpus == t.procs[i].current
  }

  lemma ReportsStored(t: Shared, pid: nat, i: nat)
    requires UniquePids(t.procs) && i < |t.procs| && t.procs[i].pid == pid && pid != NOBODY
    ensures CurrentOf(t.procs, pid) == t.procs[i].current
  {
    assert Slot(t.procs, pid) == i;
  }

  // ---------------------------------------------------------------- borrow

  /** Borrowing takes idle CPUs, all there are up to n, from nobody else. */
  lemma BorrowBalance(s: Shared, pid: nat, n: nat)
    requires Valid(s) && pid != NOBODY
    ensures var i := Slot(s.procs, pid);
      var (t, r) := BorrowCpus(s, pid, n);
      && (i == |s.procs| ==> t == s && r.code == ErrNoProc)
      && (i < |s.procs| ==>
            && |t.procs| == |s.procs| && Reports(t, r, pid, i) && Gain(s, t, i) == Min(s.idle, n) == s.idle - t.idle
            && t.reqs == s.reqs && (forall k :: 0 <= k < |s.procs| && k != i ==> t.procs[k] == s.procs[k])
            && (r.code == Success <==> Gain(s, t, i) > 0) && (r.code == NoUpdt <==> Gain(s, t, i) == 0))
  {
  }

  // ---------------------------------------------------------------- acquire

  lemma PushAmount(q: seq<Request>, pid: nat, n: nat)
    requires Packed(q) && pid != NOBODY && n > 0
    ensures Amount(Push(q, pid, n).0, pid) == Amount(q, pid) + if HasRoom(q, pid) then n else 0
  {
    PushAdds(q, pid, n);
  }

  /** The queue that an acquire of pid finds for its own petition: the victims of its reclaim are queued first. */
  function QueueAfterReclaim(s: Shared, i: nat, n: nat, max: nat): seq<Request>
    requires i < |s.procs|
  {
    var t := BorrowIdle(s, i, n);
    var missing := Missing(s, i, n);
    if missing > 0 then ReclaimFrom(t, i, missing, max).0.reqs else s.reqs
  }

  /** What is left to reclaim of n CPUs: those that no idle CPU covers, as far as i lacks CPUs that it brought. */
  function Missing(s: Shared, i: nat, n: nat): nat
    requires i < |s.procs|
  {
    var b := Min(s.idle, n);
    Min(n - b, Max(s.procs[i].initial - (s.procs[i].current + b), 0))
  }

  lemma CallerNotRequeued(s: Shared, i: nat, n: nat, max: nat)
    requires Valid(s) && i < |s.procs| && s.procs[i].pid != NOBODY && s.procs[i].current <= s.procs[i].initial
    ensures var t := ReclaimFrom(s, i, n, max).0;
      && Packed(t.reqs) && Amount(t.reqs, s.procs[i].pid) == Amount(s.reqs, s.procs[i].pid)
      && (Occupied(s.procs) <= QUEUE_CAPACITY ==> HasRoom(t.reqs, s.procs[i].pid))
  {
    var p := Victims(s, n, max);
    VictimsAreCovered(s, n, max);
    RequeueKeeps(s.procs, s.reqs, p.out);
    assert Named(p.out);
    RequeueAdds(s.reqs, p.out, s.procs[i].pid);
    RoomFor(s.procs, s.reqs, i);
    RoomFor(s.procs, Requeue(s.reqs, p.out), i);
    hide Victims, Requeue, Amount, Requeued;
  }

  lemma AcquireObtains(s: Shared, pid: nat, n: nat, max: nat)
    requires Valid(s) && Conserved(s) && pid != NOBODY && Registered(s.procs, pid) && n > 0
    ensures var i := Slot(s.procs, pid);
      var (t, r) := AcquireCpus(s, pid, n, max);
      && |t.procs| == |s.procs| && t.procs[i].pid == pid && Valid(t)
      && Gain(s, t, i) == Min(s.idle, n) + (if AcquireFits(s, i, n, max) then Missing(s, i, n) else 0)
  {
    hide AcquireCpus, Valid, Conserved, ReclaimFrom, Slot, Collectable, BorrowIdle;
    AcquireShape(s, pid, n, max);
    AcquireStepKeeps(s, pid, n, max);
    ValidOf(s, AcquireCpus(s, pid, n, max).0);
    var i := Slot(s.procs, pid);
    BorrowOf(s, i, n);
    BorrowKeepsInv(s, i, n);
    var t := BorrowIdle(s, i, n);
    if Missing(s, i, n) > 0 {
      ReclaimSucceeds(t, i, Missing(s, i, n), max);
      ReclaimedCaller(t, i, Missing(s, i, n), max);
    }
  }

  lemma AcquireReports(s: Shared, pid: nat, n: nat, max: nat)
    requires Valid(s) && Conserved(s) && pid != NOBODY && Registered(s.procs, pid) && n > 0
    ensures var (t, r) := AcquireCpus(s, pid, n, max);
      |t.procs| == |s.procs| && Reports(t, r, pid, Slot(s.procs, pid))
  {
    var (t, r) := AcquireCpus(s, pid, n, max);
    assert r.newCpus == CurrentOf(t.procs, pid) by {
      hide BorrowIdle, ReclaimFrom, Slot, CurrentOf, Push;
    }
    hide AcquireCpus, ReclaimFrom, CurrentOf;
    AcquireObtains(s, pid, n, max);
    assert UniquePids(t.procs);
    ReportsStored(t, pid, Slot(s.procs, pid));
  }

  /** The petition of an acquire, and its code, are for what it did not obtain. */
  lemma AcquireQueues(s: Shared, pid: nat, n: nat, max: nat)
    requires Valid(s) && Conserved(s) && pid != NOBODY && Registered(s.procs, pid) && n > 0
    ensures var i := Slot(s.procs, pid);
      var (t, r) := AcquireCpus(s, pid, n, max);
      var got := Min(s.idle, n) + (if AcquireFits(s, i, n, max) then Missing(s, i, n) else 0);
      var q := QueueAfterReclaim(s, i, n, max);
      && got <= n && t.reqs == (if got < n then Push(q, pid, n - got).0 else q)
      && (r.code == Noted <==> got < n) && (r.code == Success <==> got == n)
  {
    hide Valid, Conserved, ReclaimFrom, Slot, Collectable, BorrowIdle, Push;
    var i := Slot(s.procs, pid);
    BorrowOf(s, i, n);
    BorrowKeepsInv(s, i, n);
    var t := BorrowIdle(s, i, n);
    if Missing(s, i, n) > 0 {
      ReclaimSucceeds(t, i, Missing(s, i, n), max);
      ReclaimedCaller(t, i, Missing(s, i, n), max);
    }
  }

  /** What an acquire obtains and what it queues make up what was asked, exactly when nothing is left over or the
      queue has room for pid; and the code tells the two cases apart. */
  lemma AcquireBalance(s: Shared, pid: nat, n: nat, max: nat)
    requires Valid(s) && Conserved(s) && pid != NOBODY && Registered(s.procs, pid) && n > 0
    ensures var i := Slot(s.procs, pid);
      var (t, r) := AcquireCpus(s, pid, n, max);
      && |t.procs| == |s.procs| && 0 <= Gain(s, t, i) <= n
      && (Gain(s, t, i) + Wait(s, t, pid) == n <==> Gain(s, t, i) == n || HasRoom(QueueAfterReclaim(s, i, n, max), pid))
      && (Occupied(s.procs) <= QUEUE_CAPACITY ==> Gain(s, t, i) + Wait(s, t, pid) == n)
      && (r.code == Noted <==> Gain(s, t, i) < n) && (r.code == Success <==> Gain(s, t, i) == n)
      && Reports(t, r, pid, i)
  {
    hide Valid, Conserved, AcquireCpus, Push, Missing, AcquireFits, Reports, QueueAfterReclaim, Amount, HasRoom;
    AcquireReports(s, pid, n, max);
    AcquireQueues(s, pid, n, max);
    AcquireObtains(s, pid, n, max);
    var i := Slot(s.procs, pid);
    QueueFound(s, i, n, max);
    var q := QueueAfterReclaim(s, i, n, max);
    var (t, r) := AcquireCpus(s, pid, n, max);
    if Gain(s, t, i) < n {
      PushAmount(q, pid, n - Gain(s, t, i));
    }
  }

  lemma QueueFound(s: Shared, i: nat, n: nat, max: nat)
    requires Valid(s) && Conserved(s) && i < |s.procs| && s.procs[i].pid != NOBODY
    ensures var q := QueueAfterReclaim(s, i, n, max);
      && Packed(q) && Amount(q, s.procs[i].pid) == Amount(s.reqs, s.procs[i].pid)
      && (Occupied(s.procs) <= QUEUE_CAPACITY ==> HasRoom(q, s.procs[i].pid))
  {
    hide ReclaimFrom, Amount, HasRoom, Occupied, Valid, Conserved, BorrowIdle;
    BorrowOf(s, i, n);
    BorrowKeepsInv(s, i, n);
    var t := BorrowIdle(s, i, n);
    if Missing(s, i, n) > 0 {
      CallerNotRequeued(t, i, Missing(s, i, n), max);
      SetSums(s.procs, i, t.procs[i]);
    } else {
      assert Keyed(s.reqs) && Packed(s.reqs) && AllRegistered(s.procs, s.reqs) by { QueueOf(s); }
      RoomFor(s.procs, s.reqs, i);
    }
  }

  lemma QueueOf(s: Shared)
    requires Valid(s)
    ensures Keyed(s.reqs) && Packed(s.reqs) && AllRegistered(s.procs, s.reqs)
  {
  }

  lemma RoomFor(procs: seq<Process>, q: seq<Request>, i: nat)
    requires Keyed(q) && AllRegistered(procs, q) && i < |procs| && procs[i].pid != NOBODY
    ensures Occupied(procs) <= QUEUE_CAPACITY ==> HasRoom(q, procs[i].pid)
  {
    if Occupied(procs) <= QUEUE_CAPACITY {
      assert Registered(procs, procs[i].pid);
      RegisteredHasRoom(procs, q, procs[i].pid);
    }
  }

  // ---------------------------------------------------------------- lend

  /** What process i of t holds beyond its own CPUs, or waits for. */
  function Demand(t: Shared, i: nat): nat
    requires i < |t.procs|
  {
    Max(t.procs[i].current - t.procs[i].initial, 0) + Amount(t.reqs, t.procs[i].pid)
  }

  /** Lending is refused exactly to strangers, for nothing, and for more than the caller has; otherwise the caller has
      n less, waits for nothing, and is told what it has to ask for to be where it was. */
  lemma LendOutcome(s: Shared, pid: nat, n: nat, max: nat)
    requires Valid(s) && pid != NOBODY
    ensures var i := Slot(s.procs, pid);
      var (t, r) := LendCpus(s, pid, n, max);
      && (r.code == ErrNoProc <==> i == |s.procs|)
      && (r.code == NoUpdt <==> i < |s.procs| && n == 0)
      && (r.code == ErrPerm <==> i < |s.procs| && n > s.procs[i].current)
      && (r.code != Success ==> t == s)
      && (r.code == Success ==> Lent(s, t, i, n, r))
  {
    hide Valid, Slot, Lend, Lent, LendNcpus;
    var i := Slot(s.procs, pid);
    if i < |s.procs| && 0 < n <= s.procs[i].current {
      LendEffect(s, i, n, max);
    }
  }

  /** lend_keep_cpus is told how many to keep instead. */
  lemma LendKeepOutcome(s: Shared, pid: nat, keep: nat, max: nat)
    requires Valid(s) && pid != NOBODY
    ensures var i := Slot(s.procs, pid);
      var (t, r) := LendKeepCpus(s, pid, keep, max);
      && (r.code == ErrNoProc <==> i == |s.procs|)
      && (r.code == NoUpdt <==> i < |s.procs| && keep == s.procs[i].current)
      && (r.code == ErrPerm <==> i < |s.procs| && keep > s.procs[i].current)
      && (r.code != Success ==> t == s)
      && (r.code == Success ==> Lent(s, t, i, s.procs[i].current - keep, r) && t.procs[i].current == keep)
  {
    hide Valid, Slot, Lend, LendNcpus;
    var i := Slot(s.procs, pid);
    if i < |s.procs| && keep < s.procs[i].current {
      LendEffect(s, i, s.procs[i].current - keep, max);
    }
  }

  ghost predicate Lent(s: Shared, t: Shared, i: nat, n: int, r: Reply) {
    && i < |s.procs| == |t.procs| && n <= s.procs[i].current
    && t.procs[i] == s.procs[i].(current := s.procs[i].current - n)
    && Amount(t.reqs, s.procs[i].pid) == 0
    && r.prev == Demand(s, i) - Demand(t, i)
    && Reports(t, r, s.procs[i].pid, i)
  }

  lemma LendEffect(s: Shared, i: nat, n: nat, max: nat)
    requires Valid(s) && i < |s.procs| && s.procs[i].pid != NOBODY && 0 < n <= s.procs[i].current
    ensures var (t, r) := Lend(s, i, n, max);
      r.code == Success && Lent(s, t, i, n, r)
  {
    hide LendNcpus, Valid, Remove, Amount, SetCurrent, Balanced, Pids;
    LendReportsStored(s, i, n, max);
    var pid := s.procs[i].pid;
    var t := s.(reqs := Remove(s.reqs, pid));
    RemoveKeeps(s, pid);
    ValidOf(s, t);
    LendOutKeeps(t, i, s.procs[i].current - n, max);
    AmountAbsent(Lend(s, i, n, max).0.reqs, pid);
  }

  // ---------------------------------------------------------------- reclaim, reset, init and finalize

  /** Reclaiming brings the caller back to its own CPUs, or as far as idle CPUs reach; its earlier petition is then
      served with the idle CPUs left, and queued again for the rest. */
  lemma ReclaimOutcome(s: Shared, pid: nat, max: nat, prev: nat)
    requires Valid(s) && Conserved(s) && pid != NOBODY && Registered(s.procs, pid)
    requires var i := Slot(s.procs, pid); s.procs[i].current < s.procs[i].initial
    ensures var i := Slot(s.procs, pid);
      var (t, r) := Reclaim(s, pid, max, prev);
      var need := s.procs[i].initial - s.procs[i].current;
      var back := if ReclaimFits(s, need, max) then need else Min(s.idle, need);
      && |t.procs| == |s.procs| && Gain(s, t, i) == back + Min(Max(s.idle - need, 0), prev)
      && (Occupied(s.procs) <= QUEUE_CAPACITY ==> Gain(s, t, i) + Wait(s, t, pid) == back + prev)
      && (r.code == Success <==> ReclaimFits(s, need, max)) && (r.code == ErrReqst <==> !ReclaimFits(s, need, max))
      && Reports(t, r, pid, i)
  {
    hide Valid, Conserved, BorrowThenReclaim, AttendPrevious, Slot, CurrentOf, Occupied, Amount, ReclaimFits;
    var i := Slot(s.procs, pid);
    var n := s.procs[i].initial - s.procs[i].current;
    var t := BorrowThenReclaim(s, i, n, max).0;
    BroughtUp(s, i, n, max);
    Spent(s, i, n, max);
    BorrowOf(s, i, n);
    AttendEffect(t, i, prev);
    AttendKeeps(t, i, prev);
    var u := AttendPrevious(t, i, prev);
    assert Valid(u) && UniquePids(u.procs) by { ValidOf(t, u); PidsOf(u); }
    ReportsStored(u, pid, i);
    assert Reclaim(s, pid, max, prev).1.newCpus == u.procs[i].current;
  }

  /** What bringing a process up leaves: the idle CPUs it did not need, and its own petition untouched. */
  lemma Spent(s: Shared, i: nat, n: nat, max: nat)
    requires Valid(s) && i < |s.procs| && s.procs[i].pid != NOBODY && s.procs[i].current + n <= s.procs[i].initial
    ensures var t := BorrowThenReclaim(s, i, n, max).0;
      && |t.procs| == |s.procs| && t.procs[i].pid == s.procs[i].pid && t.idle == Max(s.idle - n, 0) && Valid(t)
      && Amount(t.reqs, s.procs[i].pid) == Amount(s.reqs, s.procs[i].pid)
      && (Occupied(s.procs) <= QUEUE_CAPACITY ==> HasRoom(t.reqs, s.procs[i].pid))
  {
    hide Valid, ReclaimFrom, Amount, Occupied, BorrowIdle, HasRoom, CurrentSum, InitialSum;
    BorrowThenReclaimKeeps(s, i, n, max);
    BorrowOf(s, i, n);
    BorrowKeeps(s, i, n);
    var t := BorrowIdle(s, i, n);
    SetSums(s.procs, i, t.procs[i]);
    SameProcs(s, i, n, max);
    if n > Min(s.idle, n) {
      CallerNotRequeued(t, i, n - Min(s.idle, n), max);
      ReclaimIdle(t, i, n - Min(s.idle, n), max);
    } else {
      QueueOf(s);
      RoomFor(s.procs, s.reqs, i);
    }
  }

  lemma ReclaimIdle(s: Shared, i: nat, n: nat, max: nat)
    requires i < |s.procs|
    ensures ReclaimFrom(s, i, n, max).0.idle == s.idle
  {
  }

  lemma PidsOf(s: Shared)
    requires Valid(s)
    ensures UniquePids(s.procs)
  {
  }

  /** A previous petition is served with idle CPUs, and queued again for the rest. */
  lemma AttendEffect(s: Shared, i: nat, prev: nat)
    requires Valid(s) && i < |s.procs| && s.procs[i].pid != NOBODY
    ensures var t := AttendPrevious(s, i, prev);
      && |t.procs| == |s.procs| && t.procs[i] == s.procs[i].(current := s.procs[i].current + Min(s.idle, prev))
      && t.idle == s.idle - Min(s.idle, prev)
      && (HasRoom(s.reqs, s.procs[i].pid) ==> Gain(s, t, i) + Wait(s, t, s.procs[i].pid) == prev)
  {
    hide Amount, HasRoom, BorrowIdle, Push;
    BorrowOf(s, i, prev);
    var left := prev - Min(s.idle, prev);
    if left > 0 {
      PushAmount(s.reqs, s.procs[i].pid, left);
    }
  }

  /** A reset answers with what the process had beyond its own CPUs and what it waited for; afterwards it has neither. */
  lemma ResetOutcome(s: Shared, pid: nat, max: nat)
    requires Valid(s) && Conserved(s) && pid != NOBODY && Registered(s.procs, pid)
    ensures var i := Slot(s.procs, pid);
      var (t, r) := Reset(s, pid, max);
      && |t.procs| == |s.procs| && Reports(t, r, pid, i)
      && (r.code == NoUpdt <==> s.procs[i].current == s.procs[i].initial) && (r.code == NoUpdt ==> t == s)
      && (r.code == ErrReqst <==> !ResetFits(s, i, max))
      && (r.code != NoUpdt ==> r.prev == Demand(s, i) && Demand(t, i) == 0)
      && (r.code == Success ==> t.procs[i].current == s.procs[i].initial)
  {
    hide Valid, Conserved, Slot, CurrentOf, Occupied, Amount, ResetFits, ResetProcess;
    var i := Slot(s.procs, pid);
    if s.procs[i].current != s.procs[i].initial {
      ResetKeeps(s, i, max);
      ResetRestores(s, i, max);
      ResetAnswer(s, i, max);
      var t := ResetProcess(s, i, max).0;
      ValidOf(s, t);
      PidsOf(t);
      AmountAbsent(t.reqs, pid);
      ReportsStored(t, pid, i);
    } else {
      PidsOf(s);
      NeverShort(s, i, max);
    }
  }

  lemma ResetAnswer(s: Shared, i: nat, max: nat)
    requires Valid(s) && Conserved(s) && i < |s.procs| && s.procs[i].pid != NOBODY
    requires s.procs[i].current != s.procs[i].initial
    ensures var (t, r) := ResetProcess(s, i, max);
      && |t.procs| == |s.procs| && r.prev == Demand(s, i) && r.code in {Success, ErrReqst}
      && t.procs[i].current <= t.procs[i].initial
  {
    hide Valid, Conserved, LendNcpus, BorrowThenReclaim, SetCurrent, Remove, Amount, Balanced;
    var p := s.procs[i];
    var t := s.(reqs := Remove(s.reqs, p.pid));
    RemoveKeeps(s, p.pid);
    ValidOf(s, t);
    if p.current > p.initial {
      LendOutKeeps(t, i, p.initial, max);
    } else {
      assert Conserved(t) by { SameBooks(s, t); }
      BroughtUp(t, i, p.initial - p.current, max);
      BorrowOf(t, i, p.initial - p.current);
    }
  }

  lemma SameBooks(s: Shared, t: Shared)
    requires Conserved(s) && t.procs == s.procs && t.idle == s.idle
    ensures Conserved(t)
  {
  }

  lemma NeverShort(s: Shared, i: nat, max: nat)
    requires i < |s.procs| && s.procs[i].current >= s.procs[i].initial
    ensures ResetFits(s, i, max)
  {
  }

  /** A process attaches in a free slot, with its own CPUs and no others; it is refused exactly for another
      capacity than the stored one, or for lack of a slot. */
  lemma InitOutcome(s: Shared, pid: nat, ncpus: nat, sameSize: bool)
    requires Valid(s) && Conserved(s) && pid != NOBODY && !Registered(s.procs, pid)
    ensures var i := Slot(s.procs, NOBODY);
      var (t, code) := Init(s, pid, ncpus, sameSize);
      && (code == ErrInit <==> s.attached > 0 && !sameSize)
      && (code == ErrNoMem <==> code != ErrInit && forall k :: 0 <= k < |s.procs| ==> s.procs[k].pid != NOBODY)
      && (code != Success ==> t == s)
      && (code == Success ==>
            && i < |s.procs| && s.procs[i].pid == NOBODY && t.attached == s.attached + 1
            && t.procs == s.procs[i := Process(pid, ncpus, ncpus)] && t.idle == s.idle && t.reqs == s.reqs)
  {
    hide CurrentSum, InitialSum, Valid, Conserved;
    if s.attached == 0 { FirstAttachClears(s); }
  }

  /** A process that leaves frees its slot and takes its own count with it. */
  lemma FinalizeOutcome(s: Shared, pid: nat, max: nat)
    requires Valid(s) && pid != NOBODY
    ensures var i := Slot(s.procs, pid);
      var (t, r) := Finalize(s, pid, max);
      && (i == |s.procs| ==> t == s && r.code == NoUpdt)
      && (i < |s.procs| ==>
            && |t.procs| == |s.procs| && t.procs[i] == FREE_SLOT && !Registered(t.procs, pid)
            && Valid(t) && pid !in Pids(t.reqs) && r.newCpus == s.procs[i].initial
            && (r.code == NoUpdt <==> s.procs[i].current == s.procs[i].initial)
            && (Conserved(s) ==> (r.code == ErrReqst <==> !ResetFits(s, i, max))))
  {
    hide CurrentSum, InitialSum, Valid, ResetProcess, Pids, Released, Slot;
    var i := Slot(s.procs, pid);
    if i < |s.procs| {
      ResetKeeps(s, i, max);
      var u := ResetProcess(s, i, max).0;
      ValidOf(s, u);
      ReleaseKeeps(u, i);
      GoneFrom(u, i);
      if Conserved(s) {
        ResetRestores(s, i, max);
      }
      ResetCode(s, i, max);
    }
    hide Conserved, ResetFits;
  }

  lemma ResetCode(s: Shared, i: nat, max: nat)
    requires i < |s.procs|
    ensures ResetProcess(s, i, max).1.code == NoUpdt <==> s.procs[i].current == s.procs[i].initial
  {
    hide LendNcpus, Victims, Robbed, Announce, BorrowIdle, Remove, Amount;
  }

  lemma GoneFrom(s: Shared, i: nat)
    requires Valid(s) && i < |s.procs| && s.procs[i].pid != NOBODY
    ensures var t := Released(s, i);
      |t.procs| == |s.procs| && t.procs[i] == FREE_SLOT && !Registered(t.procs, s.procs[i].pid)
  {
    OccupiedAt(s.procs, i);
    var t := Released(s, i);
    forall k | 0 <= k < |t.procs| ensures t.procs[k].pid != s.procs[i].pid {
      assert k != i ==> t.procs[k] == s.procs[k];
    }
  }

  lemma OccupiedAt(procs: seq<Process>, i: nat)
    requires i < |procs| && procs[i].pid != NOBODY
    ensures Occupied(procs) > 0
  {
    SetSums(procs, i, FREE_SLOT);
  }

  // ---------------------------------------------------------------- calls with nothing to do

  /** Strangers are refused, and whoever asks for nothing, or reclaims with nothing lacking, changes nothing. */
  lemma NothingToDo(s: Shared, pid: nat, n: nat, max: nat, prev: nat)
    requires Valid(s) && pid != NOBODY
    ensures var i := Slot(s.procs, pid);
      var (a, b, c, d) := (AcquireCpus(s, pid, n, max), Reclaim(s, pid, max, prev), Reset(s, pid, max), BorrowCpus(s, pid, n));
      && (a.1.code == NoUpdt <==> n == 0) && (a.1.code == ErrNoProc <==> n > 0 && i == |s.procs|)
      && (b.1.code == NoUpdt <==> i < |s.procs| && s.procs[i].current >= s.procs[i].initial)
      && (b.1.code == ErrNoProc <==> i == |s.procs|) && (c.1.code == ErrNoProc <==> i == |s.procs|)
      && (d.1.code == ErrNoProc <==> i == |s.procs|)
      && (n == 0 || i == |s.procs| ==> a.0 == s) && (b.1.code in {NoUpdt, ErrNoProc} ==> b.0 == s)
      && (b.1.code == NoUpdt ==> b.1.newCpus == s.procs[i].current) && (i == |s.procs| ==> c.0 == s && d.0 == s)
  {
    hide Slot, BorrowIdle, Push, CurrentOf, AttendPrevious, LendNcpus, Remove, Victims, Robbed, Announce;
  }

  /** Removing the requests of a process takes them, and no others, out of the queue. */
  lemma RemoveOutcome(s: Shared, pid: nat, p: nat)
    requires Valid(s) && pid != NOBODY
    ensures var t := RemoveRequests(s, pid);
      && t == s.(reqs := t.reqs) && Valid(t) && pid !in Pids(t.reqs)
      && Amount(t.reqs, p) == if p == pid then 0 else Amount(s.reqs, p)
  {
    RemoveKeeps(s, pid);
    RemoveForgets(s.reqs, pid);
    AmountAbsent(RemoveRequests(s, pid).reqs, pid);
  }
}
