/** The public operations of asynchronous LeWI, each one atomic step under the lock of
    src/LB_comm/shmem_lewi_async.c, and what every run of them keeps. */
module LewiAsyncRuns {
  import opened Codes
  import opened LewiQueue
  import opened LewiPop
  import opened LewiAsyncSpec

  // ---------------------------------------------------------------- operations

  function NoReply(code: Code): Reply {
    Reply(code, 0, [], 0)
  }

  /** shmem_lewi_async__init; sameSize says whether the caller expects the stored capacity. */
  function Init(s: Shared, pid: nat, ncpus: nat, sameSize: bool): (Shared, Code) {
    var t := if s.attached == 0 then s.(idle := 0, reqs := []) else s;
    var i := Slot(s.procs, NOBODY);
    if s.attached != 0 && !sameSize then (t, ErrInit)
    else if i == |s.procs| then (t, ErrNoMem)
    else (t.(attached := s.attached + 1, head := Max(s.head, i + 1),
             procs := s.procs[i := Process(pid, ncpus, ncpus)]), Success)
  }

  /** reset_process on slot i */
  function ResetProcess(s: Shared, i: nat, max: nat): (Shared, Reply)
    requires i < |s.procs|
  {
    var p := s.procs[i];
    var queued := Amount(s.reqs, p.pid);
    var t := s.(reqs := Remove(s.reqs, p.pid));
    if p.current > p.initial then
      var excess := p.current - p.initial;
      var (u, out) := LendNcpus(SetCurrent(t, i, p.initial), excess, max);
      (u, Reply(Success, 0, out, queued + excess))
    else if p.current < p.initial then
      var (u, out, code) := BorrowThenReclaim(t, i, p.initial - p.current, max);
      (u, Reply(code, 0, out, queued))
    else (t, Reply(NoUpdt, 0, [], queued))
  }

  /** shmem_lewi_async__finalize */
  function Finalize(s: Shared, pid: nat, max: nat): (Shared, Reply) {
    var i := Slot(s.procs, pid);
    if i == |s.procs| then (s, NoReply(NoUpdt))
    else
      var (t, r) := ResetProcess(s, i, max);
      (Released(t, i), Reply(r.code, s.procs[i].initial, r.out, 0))
  }

  function Released(s: Shared, i: nat): Shared {
    if i < |s.procs| && s.attached > 0 then
      s.(attached := s.attached - 1, procs := s.procs[i := FREE_SLOT])
    else s
  }

  /** The lending branch common to lend_cpus and lend_keep_cpus. */
  function Lend(s: Shared, i: nat, n: nat, max: nat): (Shared, Reply)
    requires i < |s.procs| && n <= s.procs[i].current
  {
    var p := s.procs[i];
    var notOwned := if p.current > p.initial then Min(p.current - p.initial, n) else 0;
    var queued := Amount(s.reqs, p.pid);
    var t := SetCurrent(s.(reqs := Remove(s.reqs, p.pid)), i, p.current - n);
    var (u, out) := LendNcpus(t, n, max);
    (u, Reply(Success, p.current - n, out, notOwned + queued))
  }

  /** shmem_lewi_async__lend_cpus */
  function LendCpus(s: Shared, pid: nat, n: nat, max: nat): (Shared, Reply) {
    var i := Slot(s.procs, pid);
    if i == |s.procs| then (s, NoReply(ErrNoProc))
    else if n == 0 then (s, NoReply(NoUpdt))
    else if n > s.procs[i].current then (s, NoReply(ErrPerm))
    else Lend(s, i, n, max)
  }

  /** shmem_lewi_async__lend_keep_cpus */
  function LendKeepCpus(s: Shared, pid: nat, keep: nat, max: nat): (Shared, Reply) {
    var i := Slot(s.procs, pid);
    if i == |s.procs| then (s, NoReply(ErrNoProc))
    else if keep > s.procs[i].current then (s, NoReply(ErrPerm))
    else if keep == s.procs[i].current then (s, NoReply(NoUpdt))
    else Lend(s, i, s.procs[i].current - keep, max)
  }

  /** Serve a previous petition with idle CPUs, and queue what is left of it. */
  function AttendPrevious(s: Shared, i: nat, prev: nat): Shared
    requires i < |s.procs|
  {
    var t := BorrowIdle(s, i, prev);
    var left := prev - Min(s.idle, prev);
    if left > 0 then t.(reqs := Push(t.reqs, s.procs[i].pid, left).0) else t
  }

  /** shmem_lewi_async__reclaim */
  function Reclaim(s: Shared, pid: nat, max: nat, prev: nat): (Shared, Reply) {
    var i := Slot(s.procs, pid);
    if i == |s.procs| then (s, NoReply(ErrNoProc))
    else if s.procs[i].current >= s.procs[i].initial then (s, Reply(NoUpdt, s.procs[i].current, [], 0))
    else
      var (t, out, code) := BorrowThenReclaim(s, i, s.procs[i].initial - s.procs[i].current, max);
      if i >= |t.procs| then (t, NoReply(code))
      else
        var u := AttendPrevious(t, i, prev);
        (u, Reply(code, CurrentOf(u.procs, pid), out, 0))
  }

  /** shmem_lewi_async__acquire_cpus */
  function AcquireCpus(s: Shared, pid: nat, n: nat, max: nat): (Shared, Reply) {
    var i := Slot(s.procs, pid);
    if n == 0 then (s, NoReply(NoUpdt))
    else if i == |s.procs| then (s, NoReply(ErrNoProc))
    else
      var p := s.procs[i];
      var b := Min(s.idle, n);
      var t := BorrowIdle(s, i, n);
      var missing := Min(n - b, Max(p.initial - (p.current + b), 0));
      var (u, out, code) := if missing > 0 then ReclaimFrom(t, i, missing, max)
                            else (t, [], if b > 0 then Success else NoUpdt);
      var left := if missing > 0 && code == Success then n - b - missing else n - b;
      if left > 0 then
        var v := u.(reqs := Push(u.reqs, pid, left).0);
        (v, Reply(Noted, CurrentOf(v.procs, pid), out, 0))
      else (u, Reply(code, CurrentOf(u.procs, pid), out, 0))
  }

  /** shmem_lewi_async__borrow_cpus */
  function BorrowCpus(s: Shared, pid: nat, n: nat): (Shared, Reply) {
    var i := Slot(s.procs, pid);
    if i == |s.procs| then (s, NoReply(ErrNoProc))
    else
      var t := BorrowIdle(s, i, n);
      (t, Reply(if Min(s.idle, n) > 0 then Success else NoUpdt, t.procs[i].current, [], 0))
  }

  /** shmem_lewi_async__reset */
  function Reset(s: Shared, pid: nat, max: nat): (Shared, Reply) {
    var i := Slot(s.procs, pid);
    if i == |s.procs| then (s, NoReply(ErrNoProc))
    else if s.procs[i].initial == s.procs[i].current then (s, Reply(NoUpdt, s.procs[i].current, [], 0))
    else
      var (t, r) := ResetProcess(s, i, max);
      (t, r.(newCpus := CurrentOf(t.procs, pid)))
  }

  /** shmem_lewi_async__remove_requests */
  function RemoveRequests(s: Shared, pid: nat): Shared {
    s.(reqs := Remove(s.reqs, pid))
  }

  // ---------------------------------------------------------------- runs

  datatype Step =
    | DoInit(pid: nat, ncpus: nat, sameSize: bool)
    | DoFinalize(pid: nat, max: nat)
    | DoLend(pid: nat, n: nat, max: nat)
    | DoLendKeep(pid: nat, keep: nat, max: nat)
    | DoReclaim(pid: nat, max: nat, prev: nat)
    | DoAcquire(pid: nat, n: nat, max: nat)
    | DoBorrow(pid: nat, n: nat)
    | DoReset(pid: nat, max: nat)
    | DoRemoveRequests(pid: nat)

  function Apply(s: Shared, step: Step): Shared {
    match step
    case DoInit(pid, ncpus, sameSize) => Init(s, pid, ncpus, sameSize).0
    case DoFinalize(pid, max) => Finalize(s, pid, max).0
    case DoLend(pid, n, max) => LendCpus(s, pid, n, max).0
    case DoLendKeep(pid, keep, max) => LendKeepCpus(s, pid, keep, max).0
    case DoReclaim(pid, max, prev) => Reclaim(s, pid, max, prev).0
    case DoAcquire(pid, n, max) => AcquireCpus(s, pid, n, max).0
    case DoBorrow(pid, n) => BorrowCpus(s, pid, n).0
    case DoReset(pid, max) => Reset(s, pid, max).0
    case DoRemoveRequests(pid) => RemoveRequests(s, pid)
  }

  /** Process identifiers are never zero, and a process attaches only once. */
  predicate Enabled(s: Shared, step: Step) {
    step.pid != NOBODY && (step.DoInit? ==> !Registered(s.procs, step.pid))
  }

  function Start(capacity: nat): Shared {
    Shared(0, 0, [], 0, seq(capacity, _ => FREE_SLOT))
  }

  // ---------------------------------------------------------------- every step

  lemma BorrowKeeps(s: Shared, i: nat, n: nat)
    requires Valid(s) && i < |s.procs| && s.procs[i].pid != NOBODY
    ensures Balanced(s, BorrowIdle(s, i, n))
  {
    hide CurrentSum, InitialSum;
    var b := Min(s.idle, n);
    assert Valid(s.(idle := s.idle - b));
    SetCurrentKeeps(s.(idle := s.idle - b), i, s.procs[i].current + b);
  }

  lemma RemoveKeeps(s: Shared, pid: nat)
    requires Valid(s) && pid != NOBODY
    ensures Balanced(s, s.(reqs := Remove(s.reqs, pid)))
    ensures pid !in Pids(Remove(s.reqs, pid))
  {
    RemoveForgets(s.reqs, pid);
    SubsetRegistered(s.procs, s.reqs, Remove(s.reqs, pid));
  }

  lemma PushKeeps(s: Shared, pid: nat, n: nat)
    requires Valid(s) && pid != NOBODY && Registered(s.procs, pid) && n > 0
    ensures Balanced(s, s.(reqs := Push(s.reqs, pid, n).0))
  {
    PushAdds(s.reqs, pid, n);
    var r := Push(s.reqs, pid, n).0;
    forall j | 0 <= j < |r| ensures r[j].pid != NOBODY && Registered(s.procs, r[j].pid) {
      assert r[j].pid in Pids(r);
      assert r[j].pid in Pids(s.reqs) + {pid};
    }
  }

  lemma BorrowThenReclaimKeeps(s: Shared, i: nat, n: nat, max: nat)
    requires Valid(s) && i < |s.procs| && s.procs[i].pid != NOBODY
    ensures Balanced(s, BorrowThenReclaim(s, i, n, max).0)
  {
    hide Valid, CurrentSum, InitialSum, ReclaimFrom;
    var b := Min(s.idle, n);
    BorrowKeeps(s, i, n);
    if n - b > 0 {
      ReclaimKeeps(BorrowIdle(s, i, n), i, n - b, max);
    }
  }

  // ---------------------------------------------------------------- lending steps

  lemma LendOutKeeps(s: Shared, i: nat, c: nat, max: nat)
    requires Valid(s) && i < |s.procs| && s.procs[i].pid != NOBODY && c <= s.procs[i].current
    requires s.procs[i].pid !in Pids(s.reqs)
    ensures var (t, out) := LendNcpus(SetCurrent(s, i, c), s.procs[i].current - c, max);
            && Balanced(s, t) && |t.procs| == |s.procs|
            && t.procs[i] == s.procs[i].(current := c)
            && s.procs[i].pid !in Pids(t.reqs) && s.procs[i].pid !in Pids(out)
  {
    hide Valid, CurrentSum, InitialSum, Balanced;
    SetCurrentKeeps(s, i, c);
    LendKeeps(SetCurrent(s, i, c), s.procs[i].current - c, max);
    LendSkipsLender(SetCurrent(s, i, c), s.procs[i].current - c, max, i);
    LendShrinksQueue(SetCurrent(s, i, c), s.procs[i].current - c, max);
    BalancedLend(s, i, c, max);
  }

  lemma BalancedLend(s: Shared, i: nat, c: nat, max: nat)
    requires Valid(s) && i < |s.procs| && s.procs[i].pid != NOBODY && c <= s.procs[i].current
    ensures Balanced(s, LendNcpus(SetCurrent(s, i, c), s.procs[i].current - c, max).0)
  {
    hide Valid, CurrentSum, InitialSum, LendNcpus, SetCurrent;
    SetCurrentKeeps(s, i, c);
    SetCurrentIdle(s, i, c);
    LendKeeps(SetCurrent(s, i, c), s.procs[i].current - c, max);
  }

  lemma SetCurrentIdle(s: Shared, i: nat, c: nat)
    requires i < |s.procs|
    ensures SetCurrent(s, i, c).idle == s.idle
  {
  }

  lemma LendShrinksQueue(s: Shared, n: nat, max: nat)
    requires Valid(s)
    ensures Pids(LendNcpus(s, n, max).0.reqs) <= Pids(s.reqs)
  {
    hide Pop, Grant, Announce;
    PopMeetsContract(s.reqs, n, max);
  }

  /** A lender takes its petitions out of the queue first, so it never gets its own CPUs
      back: what it reports as its new count is what the table stores. */
  lemma LendReportsStored(s: Shared, i: nat, n: nat, max: nat)
    requires Valid(s) && i < |s.procs| && s.procs[i].pid != NOBODY && n <= s.procs[i].current
    ensures var (t, r) := Lend(s, i, n, max);
            && Balanced(s, t) && |t.procs| == |s.procs|
            && t.procs[i] == s.procs[i].(current := s.procs[i].current - n)
            && r.newCpus == t.procs[i].current
            && s.procs[i].pid !in Pids(r.out)
  {
    hide LendNcpus, Valid, CurrentSum, InitialSum, SetCurrent, Remove;
    var pid := s.procs[i].pid;
    RemoveKeeps(s, pid);
    LendOutKeeps(s.(reqs := Remove(s.reqs, pid)), i, s.procs[i].current - n, max);
  }

  // ---------------------------------------------------------------- bringing a process up

  /** Once idle CPUs are spent, n more can be reclaimed for a process. */
  predicate ReclaimFits(s: Shared, n: nat, max: nat) {
    var missing := n - Min(s.idle, n);
    missing == 0 || Collectable(s, missing, max)
  }

  lemma {:induction false} SurplusUnmoved(procs: seq<Process>, i: nat, c: nat, n: nat)
    requires i < |procs| && n <= |procs| && procs[i].current <= procs[i].initial && c <= procs[i].initial
    ensures SurplusCount(procs[i := procs[i].(current := c)], n) == SurplusCount(procs, n)
    ensures ListedSurplus(procs[i := procs[i].(current := c)], n) == ListedSurplus(procs, n)
  {
    if n > 0 { SurplusUnmoved(procs, i, c, n - 1); }
  }

  lemma BorrowOf(s: Shared, i: nat, n: nat)
    requires i < |s.procs|
    ensures var t := BorrowIdle(s, i, n);
            && t.idle == s.idle - Min(s.idle, n) && t.reqs == s.reqs && |t.procs| == |s.procs|
            && t.attached == s.attached && t.head == s.head
            && t.procs == s.procs[i := s.procs[i].(current := s.procs[i].current + Min(s.idle, n))]
  {
  }

  /** Exactly when the missing CPUs can be reclaimed, the process ends up with all of them. */
  lemma BroughtUp(s: Shared, i: nat, n: nat, max: nat)
    requires Valid(s) && Conserved(s) && i < |s.procs| && s.procs[i].pid != NOBODY
    requires n > 0 && s.procs[i].current + n <= s.procs[i].initial
    ensures var (t, out, code) := BorrowThenReclaim(s, i, n, max);
            && |t.procs| == |s.procs|
            && (ReclaimFits(s, n, max) ==> code == Success && t.procs[i] == s.procs[i].(current := s.procs[i].current + n))
            && (!ReclaimFits(s, n, max) ==> code == ErrReqst && t == BorrowIdle(s, i, n)
                                            && t.procs[i].current < s.procs[i].current + n)
  {
    hide Valid, Conserved, CurrentSum, InitialSum, BorrowIdle;
    var b := Min(s.idle, n);
    var t := BorrowIdle(s, i, n);
    BorrowOf(s, i, n);
    if b < n {
      BorrowKeepsInv(s, i, n);
      SurplusUnmoved(s.procs, i, s.procs[i].current + b, |s.procs|);
      ReclaimSucceeds(t, i, n - b, max);
      ReclaimedCaller(t, i, n - b, max);
    }
  }

  lemma BorrowKeepsInv(s: Shared, i: nat, n: nat)
    requires Valid(s) && Conserved(s) && i < |s.procs| && s.procs[i].pid != NOBODY
    ensures Valid(BorrowIdle(s, i, n)) && Conserved(BorrowIdle(s, i, n))
  {
    hide Valid, CurrentSum, InitialSum, BorrowIdle;
    BorrowKeeps(s, i, n);
  }

  lemma ReclaimedCaller(s: Shared, i: nat, n: nat, max: nat)
    requires Valid(s) && i < |s.procs| && s.procs[i].current <= s.procs[i].initial
    ensures var (t, out, code) := ReclaimFrom(s, i, n, max);
            && |t.procs| == |s.procs| && (code != Success ==> t == s && code == ErrReqst)
            && (code == Success ==> t.procs[i] == s.procs[i].(current := s.procs[i].current + n))
            && (s.procs[i].pid != NOBODY ==> s.procs[i].pid !in Pids(out))
  {
    hide Valid, Requeue;
    VictimsAreCovered(s, n, max);
    var out := Victims(s, n, max).out;
    AmountPositive(out, s.procs[i].pid);
    RobbedOf(s, out, i);
    AnnouncedPids(Robbed(s, out).procs, out);
  }

  lemma AnnouncedPids(procs: seq<Process>, out: seq<Request>)
    ensures Pids(Announce(procs, out)) == Pids(out)
  {
    var a := Announce(procs, out);
    assert forall j :: 0 <= j < |out| ==> a[j].pid == out[j].pid && out[j].pid in Pids(out) && a[j].pid in Pids(a);
  }

  // ---------------------------------------------------------------- reset and finalize

  /** The room that putting a process back to its initial count needs. */
  predicate ResetFits(s: Shared, i: nat, max: nat)
    requires i < |s.procs|
  {
    ReclaimFits(s, Max(s.procs[i].initial - s.procs[i].current, 0), max)
  }

  lemma {:induction false} RequeuePids(q: seq<Request>, out: seq<Request>, pid: nat)
    requires Packed(q) && Positive(out) && Named(out) && pid !in Pids(q) && pid !in Pids(out)
    ensures pid !in Pids(Requeue(q, out)) && Packed(Requeue(q, out))
  {
    if out != [] {
      var a, last := out[..|out| - 1], out[|out| - 1];
      assert forall j :: 0 <= j < |a| ==> a[j].pid == out[j].pid && out[j].pid in Pids(out);
      assert last.pid in Pids(out);
      RequeuePids(q, a, pid);
      PushAdds(Requeue(q, a), last.pid, last.howmany);
    }
  }

  lemma ReclaimSkipsCaller(s: Shared, i: nat, n: nat, max: nat)
    requires Valid(s) && i < |s.procs| && s.procs[i].current <= s.procs[i].initial
    requires s.procs[i].pid != NOBODY && s.procs[i].pid !in Pids(s.reqs)
    ensures s.procs[i].pid !in Pids(ReclaimFrom(s, i, n, max).0.reqs)
  {
    hide UniquePids, FreeSlotsClear, HeadBounds, Occupied, Requeue, Take, Amount;
    var out := Victims(s, n, max).out;
    VictimsAreCovered(s, n, max);
    AmountPositive(out, s.procs[i].pid);
    RequeuePids(s.reqs, out, s.procs[i].pid);
  }

  /** After a reset nobody waits for the process, and its surplus has been lent. */
  lemma ResetKeeps(s: Shared, i: nat, max: nat)
    requires Valid(s) && i < |s.procs| && s.procs[i].pid != NOBODY
    ensures var t := ResetProcess(s, i, max).0;
            && Balanced(s, t) && |t.procs| == |s.procs|
            && t.procs[i].pid == s.procs[i].pid && t.procs[i].initial == s.procs[i].initial
            && s.procs[i].pid !in Pids(t.reqs)
  {
    hide Valid, CurrentSum, InitialSum, LendNcpus, BorrowThenReclaim, SetCurrent, Remove, Balanced;
    var p := s.procs[i];
    var t := s.(reqs := Remove(s.reqs, p.pid));
    RemoveKeeps(s, p.pid);
    ValidOf(s, t);
    if p.current > p.initial {
      LendOutKeeps(t, i, p.initial, max);
      BalancedTrans(s, t, ResetProcess(s, i, max).0);
    } else if p.current < p.initial {
      BroughtUpShape(t, i, p.initial - p.current, max);
      BalancedTrans(s, t, ResetProcess(s, i, max).0);
    }
  }

  lemma BalancedTrans(s: Shared, t: Shared, u: Shared)
    requires Balanced(s, t) && Balanced(t, u)
    ensures Balanced(s, u) && Valid(t)
  {
    hide Valid, CurrentSum, InitialSum;
  }

  lemma BroughtUpShape(s: Shared, i: nat, n: nat, max: nat)
    requires Valid(s) && i < |s.procs| && s.procs[i].pid != NOBODY
    requires s.procs[i].current + n <= s.procs[i].initial && s.procs[i].pid !in Pids(s.reqs)
    ensures var t := BorrowThenReclaim(s, i, n, max).0;
            && Balanced(s, t) && |t.procs| == |s.procs|
            && t.procs[i].pid == s.procs[i].pid && t.procs[i].initial == s.procs[i].initial
            && s.procs[i].pid !in Pids(t.reqs)
  {
    hide Valid, CurrentSum, InitialSum, ReclaimFrom, BorrowIdle, Balanced;
    BorrowThenReclaimKeeps(s, i, n, max);
    BorrowKeeps(s, i, n);
    BorrowOf(s, i, n);
    var t := BorrowIdle(s, i, n);
    ValidOf(s, t);
    var missing := n - Min(s.idle, n);
    if missing > 0 {
      ReclaimedCaller(t, i, missing, max);
      ReclaimSkipsCaller(t, i, missing, max);
    }
  }

  lemma ValidOf(s: Shared, t: Shared)
    requires Balanced(s, t)
    ensures Valid(t)
  {
  }

  /** A reset restores the initial count exactly when ResetFits. */
  lemma ResetRestores(s: Shared, i: nat, max: nat)
    requires Valid(s) && Conserved(s) && i < |s.procs| && s.procs[i].pid != NOBODY
    ensures var (t, r) := ResetProcess(s, i, max);
            && |t.procs| == |s.procs|
            && (t.procs[i].current == s.procs[i].initial <==> ResetFits(s, i, max))
            && (r.code == ErrReqst <==> !ResetFits(s, i, max))
  {
    hide Valid, CurrentSum, InitialSum, LendNcpus, BorrowThenReclaim, SetCurrent, Remove, SurplusCount;
    var p := s.procs[i];
    var t := s.(reqs := Remove(s.reqs, p.pid));
    RemoveKeeps(s, p.pid);
    ValidOf(s, t);
    if p.current > p.initial {
      LendOutKeeps(t, i, p.initial, max);
    } else if p.current < p.initial {
      BroughtUp(t, i, p.initial - p.current, max);
    }
  }

  lemma ReleaseKeeps(s: Shared, i: nat)
    requires Valid(s) && i < |s.procs| && s.procs[i].pid != NOBODY && s.procs[i].pid !in Pids(s.reqs)
    ensures var t := Released(s, i);
            && Valid(t) && t.idle == s.idle && t.reqs == s.reqs
            && CurrentSum(t.procs) == CurrentSum(s.procs) - s.procs[i].current
            && InitialSum(t.procs) == InitialSum(s.procs) - s.procs[i].initial
  {
    hide CurrentSum, InitialSum, Occupied;
    SetSums(s.procs, i, FREE_SLOT);
    var procs := s.procs[i := FREE_SLOT];
    forall j | 0 <= j < |s.reqs| ensures Registered(procs, s.reqs[j].pid) {
      assert s.reqs[j].pid in Pids(s.reqs);
      OtherSlot(s.procs, i, s.reqs[j].pid);
    }
  }

  lemma OtherSlot(procs: seq<Process>, i: nat, pid: nat)
    requires UniquePids(procs) && i < |procs| && pid != NOBODY && Registered(procs, pid) && procs[i].pid != pid
    ensures Registered(procs[i := FREE_SLOT], pid)
  {
    var k := Slot(procs, pid);
    assert procs[i := FREE_SLOT][k].pid == pid;
  }

  /** finalize keeps the books exactly when the reset before it could restore the process. */
  lemma FinalizeConserves(s: Shared, pid: nat, max: nat)
    requires Valid(s) && Conserved(s) && pid != NOBODY && Registered(s.procs, pid)
    ensures Conserved(Finalize(s, pid, max).0) <==> ResetFits(s, Slot(s.procs, pid), max)
  {
    hide Valid, CurrentSum, InitialSum, ResetProcess, Released, Slot, SurplusCount, ResetFits;
    var i := Slot(s.procs, pid);
    ResetKeeps(s, i, max);
    ResetRestores(s, i, max);
    ReleaseKeeps(ResetProcess(s, i, max).0, i);
  }

  lemma FinalizeValid(s: Shared, pid: nat, max: nat)
    requires Valid(s) && pid != NOBODY
    ensures Valid(Finalize(s, pid, max).0)
  {
    hide Valid, CurrentSum, InitialSum, ResetProcess, Released, Slot;
    var i := Slot(s.procs, pid);
    if i < |s.procs| {
      ResetKeeps(s, i, max);
      ValidOf(s, ResetProcess(s, i, max).0);
      ReleaseKeeps(ResetProcess(s, i, max).0, i);
    }
  }

  // ---------------------------------------------------------------- the other steps

  lemma {:induction false} NobodyAttached(procs: seq<Process>)
    requires FreeSlotsClear(procs) && Occupied(procs) == 0
    ensures CurrentSum(procs) == 0 && InitialSum(procs) == 0
    ensures forall i :: 0 <= i < |procs| ==> procs[i].pid == NOBODY
  {
    if procs != [] { NobodyAttached(procs[..|procs| - 1]); }
  }

  /** The first process to attach clears counters that are already clear. */
  lemma FirstAttachClears(s: Shared)
    requires Valid(s) && Conserved(s) && s.attached == 0
    ensures s.idle == 0 && s.reqs == []
  {
    NobodyAttached(s.procs);
    if s.reqs != [] {
      NoneRegistered(s.procs, s.reqs[0].pid);
    }
  }

  lemma NoneRegistered(procs: seq<Process>, pid: nat)
    requires pid != NOBODY && forall i :: 0 <= i < |procs| ==> procs[i].pid == NOBODY
    ensures !Registered(procs, pid)
  {
  }

  lemma InitKeeps(s: Shared, pid: nat, ncpus: nat, sameSize: bool)
    requires Valid(s) && Conserved(s) && pid != NOBODY && !Registered(s.procs, pid)
    ensures Valid(Init(s, pid, ncpus, sameSize).0) && Conserved(Init(s, pid, ncpus, sameSize).0)
  {
    hide CurrentSum, InitialSum, Occupied;
    if s.attached == 0 { FirstAttachClears(s); }
    var i := Slot(s.procs, NOBODY);
    if i < |s.procs| && (s.attached == 0 || sameSize) {
      SetSums(s.procs, i, Process(pid, ncpus, ncpus));
      var procs := s.procs[i := Process(pid, ncpus, ncpus)];
      forall j | 0 <= j < |s.reqs| ensures Registered(procs, s.reqs[j].pid) {
        assert procs[Slot(s.procs, s.reqs[j].pid)].pid == s.reqs[j].pid;
      }
    }
  }

  lemma AttendKeeps(s: Shared, i: nat, prev: nat)
    requires Valid(s) && i < |s.procs| && s.procs[i].pid != NOBODY
    ensures Balanced(s, AttendPrevious(s, i, prev))
    ensures NoIdleWhilePending(s) ==> NoIdleWhilePending(AttendPrevious(s, i, prev))
  {
    hide Valid, CurrentSum, InitialSum, BorrowIdle, Push, Balanced;
    var t := BorrowIdle(s, i, prev);
    BorrowKeeps(s, i, prev);
    BorrowOf(s, i, prev);
    ValidOf(s, t);
    var left := prev - Min(s.idle, prev);
    if left > 0 {
      assert t.procs[i].pid == s.procs[i].pid;
      PushKeeps(t, s.procs[i].pid, left);
      BalancedTrans(s, t, AttendPrevious(s, i, prev));
    }
  }

  lemma ReclaimStepKeeps(s: Shared, pid: nat, max: nat, prev: nat)
    requires Valid(s) && pid != NOBODY
    ensures Balanced(s, Reclaim(s, pid, max, prev).0)
  {
    hide UniquePids, FreeSlotsClear, HeadBounds, AllRegistered, Packed, CurrentSum, InitialSum, Occupied;
    hide BorrowThenReclaim, AttendPrevious, Slot;
    var i := Slot(s.procs, pid);
    if i < |s.procs| && s.procs[i].current < s.procs[i].initial {
      var n := s.procs[i].initial - s.procs[i].current;
      BorrowThenReclaimKeeps(s, i, n, max);
      var t := BorrowThenReclaim(s, i, n, max).0;
      SameProcs(s, i, n, max);
      AttendKeeps(t, i, prev);
      BalancedTrans(s, t, AttendPrevious(t, i, prev));
    }
  }

  lemma SameProcs(s: Shared, i: nat, n: nat, max: nat)
    requires Valid(s) && i < |s.procs| && s.procs[i].current + n <= s.procs[i].initial
    ensures var t := BorrowThenReclaim(s, i, n, max).0;
            |t.procs| == |s.procs| && t.procs[i].pid == s.procs[i].pid
  {
    hide Valid, ReclaimFrom, Requeue;
    BorrowOf(s, i, n);
    var t := BorrowIdle(s, i, n);
    SameProcsReclaim(t, i, n - Min(s.idle, n), max);
  }

  lemma SameProcsReclaim(s: Shared, i: nat, n: nat, max: nat)
    requires i < |s.procs|
    ensures var t := ReclaimFrom(s, i, n, max).0;
            |t.procs| == |s.procs| && t.procs[i].pid == s.procs[i].pid
  {
    hide Requeue, Victims;
  }

  lemma AcquireKeeps(s: Shared, i: nat, pid: nat, n: nat, max: nat)
    requires Valid(s) && pid != NOBODY && n > 0 && i == Slot(s.procs, pid) < |s.procs|
    ensures Balanced(s, AcquireCpus(s, pid, n, max).0)
    ensures NoIdleWhilePending(s) ==> NoIdleWhilePending(AcquireCpus(s, pid, n, max).0)
  {
    hide Valid, CurrentSum, InitialSum, BorrowIdle, ReclaimFrom, Slot, Push, Balanced;
    var b := Min(s.idle, n);
    var t := BorrowIdle(s, i, n);
    BorrowKeeps(s, i, n);
    BorrowOf(s, i, n);
    ValidOf(s, t);
    var missing := Min(n - b, Max(s.procs[i].initial - (s.procs[i].current + b), 0));
    var u := if missing > 0 then ReclaimFrom(t, i, missing, max).0 else t;
    if missing > 0 {
      ReclaimKeeps(t, i, missing, max);
      ReclaimLeavesIdle(t, i, missing, max);
      SameProcsReclaim(t, i, missing, max);
      BalancedTrans(s, t, u);
      ValidOf(t, u);
    }
    var code := if missing > 0 then ReclaimFrom(t, i, missing, max).2 else if b > 0 then Success else NoUpdt;
    var left := if missing > 0 && code == Success then n - b - missing else n - b;
    if left > 0 {
      SlotRegistered(u.procs, i, pid);
      PushKeeps(u, pid, left);
      BalancedTrans(s, u, u.(reqs := Push(u.reqs, pid, left).0));
    }
  }

  lemma SlotRegistered(procs: seq<Process>, i: nat, pid: nat)
    requires i < |procs| && procs[i].pid == pid
    ensures Registered(procs, pid)
  {
  }

  lemma ReclaimLeavesIdle(s: Shared, i: nat, n: nat, max: nat)
    requires i < |s.procs|
    ensures ReclaimFrom(s, i, n, max).0.idle == s.idle
    ensures s.idle == 0 ==> NoIdleWhilePending(ReclaimFrom(s, i, n, max).0)
  {
    hide Requeue, Victims;
  }

  lemma LendStepKeeps(s: Shared, pid: nat, n: nat, max: nat)
    requires Valid(s) && pid != NOBODY
    ensures Balanced(s, LendCpus(s, pid, n, max).0)
    ensures Balanced(s, LendKeepCpus(s, pid, n, max).0)
  {
    hide Lend, CurrentSum, InitialSum, Slot;
    var i := Slot(s.procs, pid);
    if i < |s.procs| && n <= s.procs[i].current {
      LendReportsStored(s, i, n, max);
      LendReportsStored(s, i, s.procs[i].current - n, max);
    }
  }

  lemma ResetStepKeeps(s: Shared, pid: nat, max: nat)
    requires Valid(s) && pid != NOBODY
    ensures Balanced(s, Reset(s, pid, max).0)
  {
    hide ResetProcess, CurrentSum, InitialSum, Slot;
    var i := Slot(s.procs, pid);
    if i < |s.procs| {
      ResetKeeps(s, i, max);
    }
  }

  lemma BorrowStepKeeps(s: Shared, pid: nat, n: nat)
    requires Valid(s) && pid != NOBODY
    ensures Balanced(s, BorrowCpus(s, pid, n).0)
  {
    hide BorrowIdle, CurrentSum, InitialSum, Slot;
    if Slot(s.procs, pid) < |s.procs| {
      BorrowKeeps(s, Slot(s.procs, pid), n);
    }
  }

  // ---------------------------------------------------------------- conservation

  /** finalize releases the slot without looking at the outcome of the reset, so the reset
      has to fit; every other operation conserves CPUs whatever happens. */
  predicate Settles(s: Shared, step: Step) {
    step.DoFinalize? && Registered(s.procs, step.pid) ==>
      ResetFits(s, Slot(s.procs, step.pid), step.max)
  }

  lemma StepKeepsValid(s: Shared, step: Step)
    requires Valid(s) && Conserved(s) && Enabled(s, step)
    ensures Valid(Apply(s, step))
    ensures !step.DoFinalize? ==> Conserved(Apply(s, step))
  {
    hide Init, Finalize, LendCpus, LendKeepCpus, Reclaim, AcquireCpus, BorrowCpus, Reset;
    hide UniquePids, FreeSlotsClear, HeadBounds, AllRegistered, Packed, CurrentSum, InitialSum, Occupied;
    match step
    case DoInit(pid, ncpus, sameSize) => InitKeeps(s, pid, ncpus, sameSize);
    case DoFinalize(pid, max) => FinalizeValid(s, pid, max);
    case DoLend(pid, n, max) => LendStepKeeps(s, pid, n, max);
    case DoLendKeep(pid, keep, max) => LendStepKeeps(s, pid, keep, max);
    case DoReclaim(pid, max, prev) => ReclaimStepKeeps(s, pid, max, prev);
    case DoAcquire(pid, n, max) => AcquireStepKeeps(s, pid, n, max);
    case DoBorrow(pid, n) => BorrowStepKeeps(s, pid, n);
    case DoReset(pid, max) => ResetStepKeeps(s, pid, max);
    case DoRemoveRequests(pid) => RemoveKeeps(s, pid);
  }

  lemma AcquireStepKeeps(s: Shared, pid: nat, n: nat, max: nat)
    requires Valid(s) && pid != NOBODY
    ensures Balanced(s, AcquireCpus(s, pid, n, max).0)
    ensures NoIdleWhilePending(s) ==> NoIdleWhilePending(AcquireCpus(s, pid, n, max).0)
  {
    var i := Slot(s.procs, pid);
    if i < |s.procs| && n > 0 {
      hide AcquireCpus, CurrentSum, InitialSum;
      AcquireKeeps(s, i, pid, n, max);
    }
  }

  lemma StepConserves(s: Shared, step: Step)
    requires Valid(s) && Conserved(s) && Enabled(s, step) && Settles(s, step)
    ensures Valid(Apply(s, step)) && Conserved(Apply(s, step))
  {
    hide Valid, CurrentSum, InitialSum, Finalize, ResetFits;
    StepKeepsValid(s, step);
    if step.DoFinalize? && Registered(s.procs, step.pid) {
      FinalizeConserves(s, step.pid, step.max);
    } else if step.DoFinalize? {
      FinalizeAbsent(s, step.pid, step.max);
    }
  }

  lemma FinalizeAbsent(s: Shared, pid: nat, max: nat)
    requires !Registered(s.procs, pid)
    ensures Finalize(s, pid, max).0 == s
  {
  }

  function Run(s: Shared, steps: seq<Step>): Shared
    decreases |steps|
  {
    if steps == [] then s else Run(Apply(s, steps[0]), steps[1..])
  }

  predicate Legal(s: Shared, steps: seq<Step>)
    decreases |steps|
  {
    steps != [] ==> Enabled(s, steps[0]) && Settles(s, steps[0]) && Legal(Apply(s, steps[0]), steps[1..])
  }

  /** Over every run, idle CPUs plus those in use are exactly those the processes brought. */
  lemma {:induction false} RunConserves(s: Shared, steps: seq<Step>)
    requires Valid(s) && Conserved(s) && Legal(s, steps)
    ensures Valid(Run(s, steps)) && Conserved(Run(s, steps))
    decreases |steps|
  {
    hide Valid, Conserved, Apply, Settles;
    if steps != [] {
      StepConserves(s, steps[0]);
      RunConserves(Apply(s, steps[0]), steps[1..]);
    }
  }

  lemma {:induction false} FreshSums(procs: seq<Process>)
    requires forall i :: 0 <= i < |procs| ==> procs[i] == FREE_SLOT
    ensures CurrentSum(procs) == 0 && InitialSum(procs) == 0 && Occupied(procs) == 0
  {
    if procs != [] { FreshSums(procs[..|procs| - 1]); }
  }

  lemma StartIsSound(capacity: nat)
    ensures Valid(Start(capacity)) && Conserved(Start(capacity)) && NoIdleWhilePending(Start(capacity))
  {
    FreshSums(Start(capacity).procs);
  }

  // ---------------------------------------------------------------- work conservation

  /** Lending leaves CPUs idle beside pending requests exactly when the output array is too
      short for the requests it could resolve. */
  lemma LendServesPending(s: Shared, n: nat, max: nat)
    requires Valid(s) && NoIdleWhilePending(s) && n > 0
    ensures NoIdleWhilePending(LendNcpus(s, n, max).0) <==> Min(n, |s.reqs|) <= max
  {
    hide UniquePids, FreeSlotsClear, HeadBounds, AllRegistered, Occupied, Pop, Grant, Announce;
    if s.reqs != [] {
      PopMeetsContract(s.reqs, n, max);
      if Min(n, |s.reqs|) > max {
        PopLeavesSome(s.reqs, n, max);
      }
    }
  }

  lemma PopLeavesSome(q: seq<Request>, n: nat, max: nat)
    requires Packed(q) && PopContract(q, n, max, Pop(q, n, max)) && max < |q|
    ensures Pop(q, n, max).left != []
  {
    hide Pop;
    var r := Pop(q, n, max);
    if r.left == [] {
      forall p | p in Pids(q) ensures p in Pids(r.out) {
        AmountPositive(q, p);
        AmountPositive(r.out, p);
        AmountAbsent(r.left, p);
      }
      KeyedCount(q);
      KeyedCount(r.out);
      SubsetCount(Pids(q), Pids(r.out));
    }
  }

  lemma {:induction false} SubsetCount(a: set<nat>, b: set<nat>)
    requires a <= b
    ensures |a| <= |b|
  {
    assert b == a + (b - a);
  }

  /** Room in the output arrays for every request the step may resolve. */
  predicate Roomy(s: Shared, step: Step) {
    match step
    case DoFinalize(_, max) => |s.reqs| <= max
    case DoLend(_, _, max) => |s.reqs| <= max
    case DoLendKeep(_, _, max) => |s.reqs| <= max
    case DoReset(_, max) => |s.reqs| <= max
    case _ => true
  }

  lemma LendStepServes(s: Shared, i: nat, n: nat, max: nat)
    requires Valid(s) && NoIdleWhilePending(s) && i < |s.procs| && s.procs[i].pid != NOBODY
    requires n <= s.procs[i].current && |s.reqs| <= max
    ensures NoIdleWhilePending(Lend(s, i, n, max).0)
  {
    hide Valid, LendNcpus, SetCurrent, Remove;
    var t := s.(reqs := Remove(s.reqs, s.procs[i].pid));
    RemoveKeeps(s, s.procs[i].pid);
    ValidOf(s, t);
    RemoveShrinks(s.reqs, s.procs[i].pid);
    LendServes(t, i, s.procs[i].current - n, max);
  }

  lemma RemoveShrinks(q: seq<Request>, pid: nat)
    ensures |Remove(q, pid)| <= |q|
  {
  }

  lemma LendServes(s: Shared, i: nat, c: nat, max: nat)
    requires Valid(s) && NoIdleWhilePending(s) && i < |s.procs| && s.procs[i].pid != NOBODY
    requires c <= s.procs[i].current && |s.reqs| <= max
    ensures NoIdleWhilePending(LendNcpus(SetCurrent(s, i, c), s.procs[i].current - c, max).0)
  {
    SetCurrentQueue(s, i, c);
    hide Valid, SetCurrent, Pop;
    SetCurrentKeeps(s, i, c);
    var t, n := SetCurrent(s, i, c), s.procs[i].current - c;
    if n > 0 {
      LendServesPending(t, n, max);
    } else {
      PopMeetsContract(t.reqs, 0, max) by { ValidQueue(t); }
    }
  }

  lemma ValidQueue(s: Shared)
    requires Valid(s)
    ensures Packed(s.reqs)
  {
  }

  lemma SetCurrentQueue(s: Shared, i: nat, c: nat)
    requires i < |s.procs|
    ensures SetCurrent(s, i, c).reqs == s.reqs && SetCurrent(s, i, c).idle == s.idle
  {
  }

  lemma ResetServes(s: Shared, i: nat, max: nat)
    requires Valid(s) && NoIdleWhilePending(s) && i < |s.procs| && s.procs[i].pid != NOBODY
    requires |s.reqs| <= max
    ensures NoIdleWhilePending(ResetProcess(s, i, max).0)
  {
    hide Valid, LendNcpus, SetCurrent, Remove, BorrowThenReclaim;
    var t := s.(reqs := Remove(s.reqs, s.procs[i].pid));
    RemoveKeeps(s, s.procs[i].pid);
    ValidOf(s, t);
    RemoveShrinks(s.reqs, s.procs[i].pid);
    if s.procs[i].current > s.procs[i].initial {
      LendServes(t, i, s.procs[i].initial, max);
    } else if s.procs[i].current < s.procs[i].initial {
      BroughtUpServes(t, i, s.procs[i].initial - s.procs[i].current, max);
    }
  }

  lemma BroughtUpServes(s: Shared, i: nat, n: nat, max: nat)
    requires NoIdleWhilePending(s) && i < |s.procs|
    ensures NoIdleWhilePending(BorrowThenReclaim(s, i, n, max).0)
  {
    hide ReclaimFrom, BorrowIdle;
    BorrowOf(s, i, n);
    if n > Min(s.idle, n) {
      ReclaimLeavesIdle(BorrowIdle(s, i, n), i, n - Min(s.idle, n), max);
    }
  }

  lemma StepServes(s: Shared, step: Step)
    requires Valid(s) && NoIdleWhilePending(s) && Enabled(s, step) && Roomy(s, step)
    ensures NoIdleWhilePending(Apply(s, step))
  {
    hide Valid, Slot, Lend, ResetProcess, BorrowIdle, BorrowThenReclaim, AttendPrevious, AcquireCpus, Remove;
    var i := Slot(s.procs, step.pid);
    match step
    case DoInit(pid, ncpus, sameSize) =>
    case DoFinalize(pid, max) => if i < |s.procs| { ResetServes(s, i, max); }
    case DoLend(pid, n, max) => if i < |s.procs| && n <= s.procs[i].current { LendStepServes(s, i, n, max); }
    case DoLendKeep(pid, keep, max) =>
      if i < |s.procs| && keep <= s.procs[i].current { LendStepServes(s, i, s.procs[i].current - keep, max); }
    case DoReclaim(pid, max, prev) => ReclaimStepServes(s, pid, max, prev);
    case DoAcquire(pid, n, max) => AcquireStepKeeps(s, pid, n, max);
    case DoBorrow(pid, n) => if i < |s.procs| { BorrowOf(s, i, n); }
    case DoReset(pid, max) => if i < |s.procs| { ResetServes(s, i, max); }
    case DoRemoveRequests(pid) => RemoveShrinks(s.reqs, pid);
  }

  lemma ReclaimStepServes(s: Shared, pid: nat, max: nat, prev: nat)
    requires Valid(s) && NoIdleWhilePending(s) && pid != NOBODY
    ensures NoIdleWhilePending(Reclaim(s, pid, max, prev).0)
  {
    hide Valid, Slot, BorrowThenReclaim, AttendPrevious;
    var i := Slot(s.procs, pid);
    if i < |s.procs| && s.procs[i].current < s.procs[i].initial {
      var n := s.procs[i].initial - s.procs[i].current;
      BroughtUpServes(s, i, n, max);
      BorrowThenReclaimKeeps(s, i, n, max);
      ValidOf(s, BorrowThenReclaim(s, i, n, max).0);
      SameProcs(s, i, n, max);
      AttendKeeps(BorrowThenReclaim(s, i, n, max).0, i, prev);
    }
  }

  predicate AllRoomy(s: Shared, steps: seq<Step>)
    decreases |steps|
  {
    steps != [] ==> Roomy(s, steps[0]) && AllRoomy(Apply(s, steps[0]), steps[1..])
  }

  /** Over every run with large enough output arrays, no CPU idles while a request waits. */
  lemma {:induction false} RunServes(s: Shared, steps: seq<Step>)
    requires Valid(s) && Conserved(s) && NoIdleWhilePending(s) && Legal(s, steps) && AllRoomy(s, steps)
    ensures NoIdleWhilePending(Run(s, steps))
    decreases |steps|
  {
    hide Valid, Conserved, Apply, Settles, NoIdleWhilePending, Roomy;
    if steps != [] {
      StepConserves(s, steps[0]);
      StepServes(s, steps[0]);
      RunServes(Apply(s, steps[0]), steps[1..]);
    }
  }

  lemma ReachableServes(capacity: nat, steps: seq<Step>)
    requires Legal(Start(capacity), steps) && AllRoomy(Start(capacity), steps)
    ensures var s := Run(Start(capacity), steps); Valid(s) && Conserved(s) && NoIdleWhilePending(s)
  {
    StartIsSound(capacity);
    RunConserves(Start(capacity), steps);
    RunServes(Start(capacity), steps);
  }

  // ---------------------------------------------------------------- round trip

  /** Lending all but keep and then reclaiming with the returned prev_requested undoes the
      lend, provided nobody else waits for CPUs, exactly when there were no idle CPUs beside
      the process's own pending request. */
  lemma LendThenReclaim(s: Shared, pid: nat, keep: nat, max: nat, max': nat)
    requires Valid(s) && pid != NOBODY && Registered(s.procs, pid) && Pids(s.reqs) <= {pid}
    requires var p := s.procs[Slot(s.procs, pid)]; p.current >= p.initial > keep
    ensures var (t, r) := LendKeepCpus(s, pid, keep, max);
            var (u, r') := Reclaim(t, pid, max', r.prev);
            && r.code == Success && r.out == [] && r'.code == Success && r'.out == []
            && (u == s <==> s.idle == 0 || s.reqs == [])
  {
    hide UniquePids, FreeSlotsClear, HeadBounds, Occupied, AllRegistered, Amount, Remove, Slot;
    hide BorrowThenReclaim, AttendPrevious, Lend;
    var i := Slot(s.procs, pid);
    var p := s.procs[i];
    OnlyRequest(s.reqs, pid);
    LendAlone(s, i, p.current - keep, max);
    var (t, r) := LendKeepCpus(s, pid, keep, max);
    SlotKept(s.procs, pid, p.(current := keep));
    UndoLend(s, t, i, p.current - keep, r.prev, max');
  }

  lemma SlotKept(procs: seq<Process>, pid: nat, p: Process)
    requires Registered(procs, pid) && p.pid == pid
    ensures Slot(procs[Slot(procs, pid) := p], pid) == Slot(procs, pid)
  {
    var r, k := procs[Slot(procs, pid) := p], Slot(procs, pid);
    assert r[k].pid == pid;
    assert forall j :: 0 <= j < k ==> r[j].pid == procs[j].pid;
  }

  lemma LendAlone(s: Shared, i: nat, n: nat, max: nat)
    requires i < |s.procs| && n <= s.procs[i].current && Remove(s.reqs, s.procs[i].pid) == []
    ensures var p := s.procs[i];
            var (t, r) := Lend(s, i, n, max);
            && t == s.(idle := s.idle + n, reqs := [], procs := s.procs[i := p.(current := p.current - n)])
            && r == Reply(Success, p.current - n, [],
                          (if p.current > p.initial then Min(p.current - p.initial, n) else 0)
                          + Amount(s.reqs, p.pid))
  {
    hide Remove, Amount;
  }

  lemma OnlyRequest(q: seq<Request>, pid: nat)
    requires Packed(q) && pid != NOBODY && Pids(q) <= {pid}
    ensures Remove(q, pid) == []
    ensures q == if Amount(q, pid) == 0 then [] else [Request(pid, Amount(q, pid))]
  {
    var r := Remove(q, pid);
    assert forall k :: 0 <= k < |r| ==> r[k].pid in Pids(r);
    RemoveForgets(q, pid);
    KeyedCount(q);
    SubsetCount(Pids(q), {pid});
    if q != [] {
      assert q[0].pid in Pids(q);
      AmountAt(q, 0);
    }
  }

  lemma UndoLend(s: Shared, t: Shared, i: nat, lent: nat, prev: nat, max: nat)
    requires i < |s.procs| && s.procs[i].pid != NOBODY && s.procs[i].current >= s.procs[i].initial
    requires s.procs[i].current - s.procs[i].initial < lent <= s.procs[i].current
    requires t == s.(idle := s.idle + lent, reqs := [],
                     procs := s.procs[i := s.procs[i].(current := s.procs[i].current - lent)])
    requires var a := prev - (s.procs[i].current - s.procs[i].initial);
             a >= 0 && s.reqs == if a == 0 then [] else [Request(s.procs[i].pid, a)]
    ensures var (u, out, code) := BorrowThenReclaim(t, i, t.procs[i].initial - t.procs[i].current, max);
            && out == [] && code == Success && |u.procs| == |s.procs|
            && (AttendPrevious(u, i, prev) == s <==> s.idle == 0 || s.reqs == [])
  {
    var need := t.procs[i].initial - t.procs[i].current;
    var u := BorrowIdle(t, i, need);
    assert u == s.(idle := s.idle + lent - need, reqs := [],
                   procs := s.procs[i := s.procs[i].(current := s.procs[i].initial)]);
    var v := BorrowIdle(u, i, prev);
    var got := Min(u.idle, prev);
    assert v.procs == s.procs[i := s.procs[i].(current := s.procs[i].initial + got)];
    if got == s.procs[i].current - s.procs[i].initial {
      assert v.procs == s.procs;
    } else {
      assert v.procs[i] != s.procs[i];
    }
  }
}
