/** The counts that the operations of asynchronous LeWI hand to the policy, which sends them on as thread counts
    (src/LB_comm/shmem_lewi_async.c, src/LB_policies/lewi_async.c), against the counts in the table. */
module LewiAsyncReplies {
  import opened Codes
  import opened LewiQueue
  import opened LewiPop
  import opened LewiAsyncSpec
  import opened LewiAsyncRuns

  /** Every process named is told its stored count. */
  ghost predicate Stored(procs: seq<Process>, out: seq<Request>) {
    forall j :: 0 <= j < |out| ==> out[j].howmany == CurrentOf(procs, out[j].pid)
  }

  /** Every process has brought CPUs of its own. */
  ghost predicate AllBrought(procs: seq<Process>) {
    forall i :: 0 <= i < |procs| && procs[i].pid != NOBODY ==> procs[i].initial > 0
  }

  lemma AnnounceStores(procs: seq<Process>, out: seq<Request>)
    ensures Stored(procs, Announce(procs, out))
  {
  }

  lemma CurrentOfOther(procs: seq<Process>, i: nat, p: Process, pid: nat)
    requires i < |procs| && procs[i].pid != pid && p.pid != pid
    ensures CurrentOf(procs[i := p], pid) == CurrentOf(procs, pid)
  {
    var r := procs[i := p];
    assert forall k :: 0 <= k < |procs| && k != i ==> r[k] == procs[k];
    var a, b := Slot(procs, pid), Slot(r, pid);
    if a < |procs| {
      assert r[a].pid == pid;
    }
    if b < |r| {
      assert procs[b].pid == pid;
    }
  }

  /** A change of a process that is not named. */
  lemma StoredOther(procs: seq<Process>, i: nat, p: Process, out: seq<Request>)
    requires i < |procs| && procs[i].pid !in Pids(out) && p.pid !in Pids(out)
    ensures Stored(procs[i := p], out) <==> Stored(procs, out)
  {
    forall j | 0 <= j < |out| ensures CurrentOf(procs[i := p], out[j].pid) == CurrentOf(procs, out[j].pid) {
      assert out[j].pid in Pids(out);
      CurrentOfOther(procs, i, p, out[j].pid);
    }
    hide CurrentOf;
  }

  // ---------------------------------------------------------------- lending and reclaiming

  lemma LendStores(s: Shared, i: nat, n: nat, max: nat)
    requires i < |s.procs| && n <= s.procs[i].current
    ensures var (t, r) := Lend(s, i, n, max); Stored(t.procs, r.out)
  {
    hide Pop, Grant, Remove, CurrentOf, Amount;
  }

  lemma ReclaimStores(s: Shared, i: nat, n: nat, max: nat)
    requires Valid(s) && i < |s.procs| && s.procs[i].pid != NOBODY && s.procs[i].current <= s.procs[i].initial
    requires ReclaimFrom(s, i, n, max).2 == Success
    ensures var (t, out, _) := ReclaimFrom(s, i, n, max);
      && |t.procs| == |s.procs| && t.procs[i].pid == s.procs[i].pid
      && Stored(t.procs, out) && s.procs[i].pid !in Pids(out)
  {
    var p := Victims(s, n, max);
    VictimsAreCovered(s, n, max);
    AmountPositive(p.out, s.procs[i].pid);
    hide Victims, Valid, Amount, Positive, Keyed, CurrentOf, AllRegistered, Requeue;
    var t := Robbed(s, p.out);
    AnnouncedPids(t.procs, p.out);
    AnnounceStores(t.procs, p.out);
    StoredOther(t.procs, i, t.procs[i].(current := t.procs[i].current + n), Announce(t.procs, p.out));
  }

  /** When reclaiming fails the output names victims, as many as it can, with the CPUs they would have lost, fewer than they have if
      they brought any. */
  lemma FailureNames(s: Shared, i: nat, n: nat, max: nat)
    requires Valid(s) && Conserved(s) && s.idle == 0 && i < |s.procs| && s.procs[i].initial >= s.procs[i].current + n && n > 0
    requires ReclaimFrom(s, i, n, max).2 != Success
    ensures var (t, out, code) := ReclaimFrom(s, i, n, max);
      && t == s && code == ErrReqst && |out| == Min(max, QUEUE_CAPACITY)
      && (max > 0 && AllBrought(s.procs) ==> !Stored(s.procs, out))
  {
    var q, p := Surplus(s.procs, |s.procs|), Victims(s, n, max);
    SurplusIsListed(s.procs, |s.procs|);
    PopMeetsContract(q, n, max);
    SurplusCoversDeficits(s.procs, |s.procs|, i);
    assert s.procs[..|s.procs|] == s.procs;
    ListedAtLeast(s.procs, |s.procs|);
    if SurplusCount(s.procs, |s.procs|) <= QUEUE_CAPACITY {
      AllListed(s.procs, |s.procs|);
    }
    assert |p.out| == Min(max, QUEUE_CAPACITY);
    if max > 0 && AllBrought(s.procs) {
      VictimsAreCovered(s, n, max);
      AmountAt(p.out, 0);
      hide Pop, Surplus, Amount;
      var k := Slot(s.procs, p.out[0].pid);
      assert p.out[0].howmany <= Max(s.procs[k].current - s.procs[k].initial, 0);
      assert CurrentOf(s.procs, p.out[0].pid) == s.procs[k].current;
    }
  }

  /** Every victim listed has at least one CPU to give. */
  lemma {:induction false} ListedAtLeast(procs: seq<Process>, n: nat)
    requires n <= |procs|
    ensures ListedSurplus(procs, n) >= Min(SurplusCount(procs, n), QUEUE_CAPACITY)
  {
    if n > 0 {
      ListedAtLeast(procs, n - 1);
    }
  }

  // ---------------------------------------------------------------- the operations

  lemma BorrowThenReclaimStores(s: Shared, i: nat, n: nat, max: nat)
    requires Valid(s) && i < |s.procs| && s.procs[i].pid != NOBODY && s.procs[i].current + n <= s.procs[i].initial
    ensures var (t, out, code) := BorrowThenReclaim(s, i, n, max);
      && |t.procs| == |s.procs| && t.procs[i].pid == s.procs[i].pid
      && (code != ErrReqst ==> Stored(t.procs, out) && s.procs[i].pid !in Pids(out))
  {
    hide BorrowIdle, ReclaimFrom, Stored, Balanced, Valid, Pids;
    var t := BorrowIdle(s, i, n);
    BorrowKeeps(s, i, n);
    BorrowOf(s, i, n);
    ValidOf(s, t);
    if Min(s.idle, n) < n {
      ReclaimedCaller(t, i, n - Min(s.idle, n), max);
      if ReclaimFrom(t, i, n - Min(s.idle, n), max).2 == Success {
        ReclaimStores(t, i, n - Min(s.idle, n), max);
      }
    } else {
      NothingStored(t.procs);
      NobodyInNothing(s.procs[i].pid);
    }
  }

  lemma NothingStored(procs: seq<Process>)
    ensures Stored(procs, [])
  {
  }

  lemma AttendStores(s: Shared, i: nat, prev: nat, out: seq<Request>)
    requires i < |s.procs| && s.procs[i].pid !in Pids(out) && Stored(s.procs, out)
    ensures Stored(AttendPrevious(s, i, prev).procs, out)
  {
    hide Stored, Push;
    StoredOther(s.procs, i, s.procs[i].(current := s.procs[i].current + Min(s.idle, prev)), out);
  }

  lemma ReclaimOpStores(s: Shared, pid: nat, max: nat, prev: nat)
    requires Valid(s) && pid != NOBODY
    ensures var (t, r) := Reclaim(s, pid, max, prev); r.code != ErrReqst ==> Stored(t.procs, r.out)
  {
    hide BorrowThenReclaim, Stored, AttendPrevious, CurrentOf, Valid, Slot, Pids;
    var i := Slot(s.procs, pid);
    NothingStored(s.procs);
    if i < |s.procs| && s.procs[i].current < s.procs[i].initial {
      var n := s.procs[i].initial - s.procs[i].current;
      BorrowThenReclaimStores(s, i, n, max);
      var (t, out, code) := BorrowThenReclaim(s, i, n, max);
      if code != ErrReqst {
        AttendStores(t, i, prev, out);
      }
    }
  }

  lemma ResetDownStores(s: Shared, i: nat, max: nat)
    requires Valid(s) && i < |s.procs| && s.procs[i].pid != NOBODY && s.procs[i].current > s.procs[i].initial
    requires s.procs[i].pid !in Pids(s.reqs)
    ensures var p := s.procs[i];
      var (t, out) := LendNcpus(SetCurrent(s, i, p.initial), p.current - p.initial, max);
      Stored(t.procs, out) && p.pid !in Pids(out)
  {
    hide LendNcpus, SetCurrent, Stored, Valid, Pids, Balanced;
    var p := s.procs[i];
    LendOutKeeps(s, i, p.initial, max);
    LendNcpusStores(SetCurrent(s, i, p.initial), p.current - p.initial, max);
  }

  /** What reset_process announces is stored exactly unless it fails to bring the process up. */
  lemma ResetProcessStores(s: Shared, i: nat, max: nat)
    requires Valid(s) && Conserved(s) && i < |s.procs| && s.procs[i].pid != NOBODY
    ensures var (t, r) := ResetProcess(s, i, max);
      && |t.procs| == |s.procs| && t.procs[i].pid == s.procs[i].pid && s.procs[i].pid !in Pids(r.out)
      && (ResetFits(s, i, max) || max == 0 ==> Stored(t.procs, r.out))
      && (!ResetFits(s, i, max) && max > 0 && AllBrought(s.procs) ==> !Stored(t.procs, r.out))
  {
    hide Remove, Stored, Valid, CurrentSum, InitialSum, AllBrought, Pids, LendNcpus, SetCurrent, BorrowThenReclaim, ReclaimFits;
    var p := s.procs[i];
    var t := s.(reqs := Remove(s.reqs, p.pid));
    RemoveKeeps(s, p.pid);
    ResetKeeps(s, i, max);
    ValidOf(s, t);
    if p.current > p.initial {
      NothingMissing(s, max);
      ResetDownStores(t, i, max);
    } else if p.current < p.initial {
      ResetUpStores(t, i, max);
      SameRoom(s, t, p.initial - p.current, max);
    } else {
      NothingMissing(s, max);
      NothingStored(s.procs);
      NobodyInNothing(p.pid);
    }
  }

  lemma NobodyInNothing(pid: nat)
    ensures pid !in Pids([])
  {
  }

  lemma NothingMissing(s: Shared, max: nat)
    ensures ReclaimFits(s, 0, max)
  {
  }

  lemma SameRoom(s: Shared, t: Shared, n: nat, max: nat)
    requires t.procs == s.procs && t.idle == s.idle
    ensures ReclaimFits(t, n, max) <==> ReclaimFits(s, n, max)
  {
  }

  lemma LendNcpusStores(s: Shared, n: nat, max: nat)
    ensures Stored(LendNcpus(s, n, max).0.procs, LendNcpus(s, n, max).1)
  {
    hide Pop, Grant, CurrentOf;
  }

  lemma ResetUpStores(s: Shared, i: nat, max: nat)
    requires Valid(s) && Conserved(s) && i < |s.procs| && s.procs[i].pid != NOBODY && s.procs[i].current < s.procs[i].initial
    ensures var n := s.procs[i].initial - s.procs[i].current;
      var (t, out, code) := BorrowThenReclaim(s, i, n, max);
      && s.procs[i].pid !in Pids(out)
      && (ReclaimFits(s, n, max) || max == 0 ==> Stored(t.procs, out))
      && (!ReclaimFits(s, n, max) && max > 0 && AllBrought(s.procs) ==> !Stored(t.procs, out))
  {
    var n := s.procs[i].initial - s.procs[i].current;
    BroughtUp(s, i, n, max);
    BorrowThenReclaimStores(s, i, n, max);
    var b := Min(s.idle, n);
    var t := BorrowIdle(s, i, n);
    BorrowOf(s, i, n);
    BorrowKeepsInv(s, i, n);
    hide BorrowIdle, Valid, CurrentSum, InitialSum, Stored, ReclaimFrom, ReclaimFits;
    if b < n {
      ReclaimedCaller(t, i, n - b, max);
      if ReclaimFrom(t, i, n - b, max).2 != Success {
        FailureNames(t, i, n - b, max);
        SameBrought(s.procs, t.procs);
        NothingStored(t.procs);
      }
    }
  }

  lemma SameBrought(a: seq<Process>, b: seq<Process>)
    requires SameLayout(a, b)
    ensures AllBrought(a) <==> AllBrought(b)
  {
  }

  // ---------------------------------------------------------------- what the policy sends on

  /** The output array, and the surplus queue, suffice for the reclaim that is part of an acquire. */
  predicate AcquireFits(s: Shared, i: nat, n: nat, max: nat)
    requires i < |s.procs|
  {
    var b := Min(s.idle, n);
    var missing := Min(n - b, Max(s.procs[i].initial - (s.procs[i].current + b), 0));
    missing == 0 || Collectable(BorrowIdle(s, i, n), missing, max)
  }

  /** The table and the output of an acquire are those of its borrow and reclaim. */
  lemma AcquireShape(s: Shared, pid: nat, n: nat, max: nat)
    requires Registered(s.procs, pid) && n > 0
    ensures var i := Slot(s.procs, pid);
      var b := Min(s.idle, n);
      var t := BorrowIdle(s, i, n);
      var missing := Min(n - b, Max(s.procs[i].initial - (s.procs[i].current + b), 0));
      var (u, r) := AcquireCpus(s, pid, n, max);
      if missing > 0 then u.procs == ReclaimFrom(t, i, missing, max).0.procs && r.out == ReclaimFrom(t, i, missing, max).1
      else u.procs == t.procs && r.out == []
  {
    hide BorrowIdle, ReclaimFrom, Slot, CurrentOf, Push;
  }

  lemma AcquireStores(s: Shared, pid: nat, n: nat, max: nat)
    requires Valid(s) && Conserved(s) && pid != NOBODY && Registered(s.procs, pid) && n > 0
    ensures var (t, r) := AcquireCpus(s, pid, n, max);
      && (AcquireFits(s, Slot(s.procs, pid), n, max) || max == 0 ==> Stored(t.procs, r.out))
      && (!AcquireFits(s, Slot(s.procs, pid), n, max) && max > 0 && AllBrought(s.procs) ==> !Stored(t.procs, r.out))
  {
    hide Valid, Conserved, Stored, ReclaimFrom, Slot, AllBrought, Collectable, AcquireCpus, Pids;
    AcquireShape(s, pid, n, max);
    var i := Slot(s.procs, pid);
    var b := Min(s.idle, n);
    var t := BorrowIdle(s, i, n);
    var missing := Min(n - b, Max(s.procs[i].initial - (s.procs[i].current + b), 0));
    BorrowOf(s, i, n);
    BorrowKeepsInv(s, i, n);
    hide BorrowIdle;
    SameBrought(s.procs, t.procs);
    if missing > 0 {
      ReclaimSucceeds(t, i, missing, max);
      if ReclaimFrom(t, i, missing, max).2 == Success {
        ReclaimStores(t, i, missing, max);
      } else {
        FailureNames(t, i, missing, max);
        EmptyStored(t.procs, ReclaimFrom(t, i, missing, max).1);
      }
    } else {
      NothingStored(t.procs);
    }
  }

  lemma EmptyStored(procs: seq<Process>, out: seq<Request>)
    ensures |out| == 0 ==> Stored(procs, out)
  {
  }

  /** finalize announces the outcome of the reset whatever its code. */
  lemma FinalizeStores(s: Shared, pid: nat, max: nat)
    requires Valid(s) && Conserved(s) && pid != NOBODY && Registered(s.procs, pid)
    ensures var (t, r) := Finalize(s, pid, max);
      && (ResetFits(s, Slot(s.procs, pid), max) || max == 0 ==> Stored(t.procs, r.out))
      && (!ResetFits(s, Slot(s.procs, pid), max) && max > 0 && AllBrought(s.procs) ==> !Stored(t.procs, r.out))
  {
    hide ResetProcess, Stored, ResetFits, Valid, CurrentSum, InitialSum, Slot, Pids, AllBrought;
    var i := Slot(s.procs, pid);
    ResetProcessStores(s, i, max);
    var (t, r) := ResetProcess(s, i, max);
    NobodyNamed(s, i, max);
    StoredOther(t.procs, i, FREE_SLOT, r.out);
  }

  lemma NobodyNamed(s: Shared, i: nat, max: nat)
    requires Valid(s) && i < |s.procs| && s.procs[i].pid != NOBODY
    ensures NOBODY !in Pids(ResetProcess(s, i, max).1.out)
  {
    hide Remove, Valid, LendNcpus, SetCurrent, BorrowThenReclaim, Pids, Balanced;
    var p := s.procs[i];
    var t := s.(reqs := Remove(s.reqs, p.pid));
    RemoveKeeps(s, p.pid);
    ValidOf(s, t);
    if p.current > p.initial {
      SetCurrentKeeps(t, i, p.initial);
      LendNames(SetCurrent(t, i, p.initial), p.current - p.initial, max);
    } else if p.current < p.initial {
      ReclaimNames(t, i, p.initial - p.current, max);
    } else {
      NobodyInNothing(NOBODY);
    }
  }

  lemma ReclaimNames(s: Shared, i: nat, n: nat, max: nat)
    requires Valid(s) && i < |s.procs| && s.procs[i].pid != NOBODY
    ensures NOBODY !in Pids(BorrowThenReclaim(s, i, n, max).1)
  {
    hide BorrowIdle, Robbed, Victims, CurrentSum, InitialSum, Balanced, Valid;
    BorrowKeeps(s, i, n);
    BorrowOf(s, i, n);
    var t := BorrowIdle(s, i, n);
    ValidOf(s, t);
    if Min(s.idle, n) < n {
      var out := Victims(t, n - Min(s.idle, n), max).out;
      VictimsAreCovered(t, n - Min(s.idle, n), max);
      AnnouncedPids(Robbed(t, out).procs, out);
    }
  }

  lemma LendNames(s: Shared, n: nat, max: nat)
    requires Valid(s)
    ensures NOBODY !in Pids(LendNcpus(s, n, max).1)
  {
    if s.reqs != [] {
      var p := Pop(s.reqs, n, max);
      PopMeetsContract(s.reqs, n, max);
      AnnouncedPids(Grant(s.procs, p.out), p.out);
      hide Pop, Grant;
    }
  }

  /** What the policy passes on to the helper threads after an operation. */
  function Sent(s: Shared, step: Step): seq<Request> {
    match step
    case DoFinalize(pid, max) => Finalize(s, pid, max).1.out
    case DoLend(pid, n, max) => OnSuccess(LendCpus(s, pid, n, max).1)
    case DoLendKeep(pid, keep, max) => OnSuccess(LendKeepCpus(s, pid, keep, max).1)
    case DoReclaim(pid, max, prev) => OnSuccess(Reclaim(s, pid, max, prev).1)
    case DoReset(pid, max) => OnSuccess(Reset(s, pid, max).1)
    case DoAcquire(pid, n, max) =>
      var r := AcquireCpus(s, pid, n, max).1;
      if r.code == Success || r.code == Noted then r.out else []
    case _ => []
  }

  function OnSuccess(r: Reply): seq<Request> {
    if r.code == Success then r.out else []
  }

  /** A finalize or an acquire whose reclaim has room, or no room to name anybody. */
  predicate SendFits(s: Shared, step: Step) {
    match step
    case DoFinalize(pid, max) => Registered(s.procs, pid) ==> max == 0 || ResetFits(s, Slot(s.procs, pid), max)
    case DoAcquire(pid, n, max) =>
      Registered(s.procs, pid) && n > 0 ==> max == 0 || AcquireFits(s, Slot(s.procs, pid), n, max)
    case _ => true
  }

  lemma LendStepStores(s: Shared, step: Step)
    requires step.DoLend? || step.DoLendKeep?
    ensures Stored(Apply(s, step).procs, Sent(s, step))
  {
    hide Lend, Stored, Slot;
    var i := Slot(s.procs, step.pid);
    NothingStored(Apply(s, step).procs);
    if i < |s.procs| {
      var n := if step.DoLend? then step.n else s.procs[i].current - step.keep;
      if 0 <= n <= s.procs[i].current {
        LendStores(s, i, n, step.max);
      }
    }
  }

  lemma ResetStepStores(s: Shared, pid: nat, max: nat)
    requires Valid(s) && Conserved(s) && pid != NOBODY
    ensures Stored(Apply(s, DoReset(pid, max)).procs, Sent(s, DoReset(pid, max)))
  {
    hide ResetProcess, Stored, Slot, Valid, CurrentSum, InitialSum, CurrentOf, ResetFits, Pids, AllBrought;
    var i := Slot(s.procs, pid);
    NothingStored(Apply(s, DoReset(pid, max)).procs);
    if i < |s.procs| && s.procs[i].initial != s.procs[i].current {
      ResetProcessStores(s, i, max);
      ResetRestores(s, i, max);
    }
  }

  lemma AcquireSends(s: Shared, pid: nat, n: nat, max: nat)
    requires Registered(s.procs, pid) && n > 0
    ensures Sent(s, DoAcquire(pid, n, max)) == AcquireCpus(s, pid, n, max).1.out
  {
    hide BorrowIdle, Pop, Surplus, Requeue, Push, Slot, CurrentOf, Robbed;
  }

  /** Whatever the policy sends on after an operation are the counts in the table, except when an acquire or a
      finalize could not reclaim: then, if the output has room at all, somebody is told less than it has. */
  lemma SentAreStored(s: Shared, step: Step)
    requires Valid(s) && Conserved(s) && step.pid != NOBODY
    ensures SendFits(s, step) ==> Stored(Apply(s, step).procs, Sent(s, step))
    ensures !SendFits(s, step) && AllBrought(s.procs) ==> !Stored(Apply(s, step).procs, Sent(s, step))
  {
    hide Stored, AllBrought, Valid, Conserved, ResetFits, AcquireFits, Slot;
    hide Init, LendCpus, LendKeepCpus, Reset, BorrowCpus, RemoveRequests;
    NothingStored(Apply(s, step).procs);
    match step
    case DoFinalize(pid, max) =>
      hide Finalize;
      if Registered(s.procs, pid) {
        FinalizeStores(s, pid, max);
      } else {
        FinalizeSilent(s, pid, max);
      }
    case DoAcquire(pid, n, max) =>
      if Registered(s.procs, pid) && n > 0 {
        AcquireStores(s, pid, n, max);
        AcquireSends(s, pid, n, max);
        hide AcquireCpus;
      }
    case DoReclaim(pid, max, prev) =>
      hide Reclaim;
      ReclaimOpStores(s, pid, max, prev);
    case DoReset(pid, max) => ResetStepStores(s, pid, max);
    case DoLend(_, _, _) => LendStepStores(s, step);
    case DoLendKeep(_, _, _) => LendStepStores(s, step);
    case _ =>
  }

  lemma FinalizeSilent(s: Shared, pid: nat, max: nat)
    requires !Registered(s.procs, pid)
    ensures Finalize(s, pid, max).1.out == []
  {
  }

  // ---------------------------------------------------------------- the arrays of the policy

  /** With room in the output for as many processes as the caller has CPUs, and no more victims than the surplus queue
      can list, nothing of this happens: a process never misses more CPUs than it brought. */
  lemma OwnSizeSuffices(s: Shared, i: nat, n: nat, max: nat)
    requires Valid(s) && Conserved(s) && i < |s.procs| && s.procs[i].pid != NOBODY && s.procs[i].initial <= max
    requires SurplusCount(s.procs, |s.procs|) <= QUEUE_CAPACITY
    ensures ResetFits(s, i, max) && AcquireFits(s, i, n, max)
  {
    var p := s.procs[i];
    if p.current < p.initial {
      AllListed(s.procs, |s.procs|);
      SurplusCoversDeficits(s.procs, |s.procs|, i);
      assert s.procs[..|s.procs|] == s.procs;
      var b := Min(s.idle, n);
      BorrowOf(s, i, n);
      hide Valid, CurrentSum, InitialSum, BorrowIdle;
      if p.current + b <= p.initial {
        SurplusUnmoved(s.procs, i, p.current + b, |s.procs|);
      }
    }
  }
}
