/** The shared counters of asynchronous LeWI (src/LB_comm/shmem_lewi_async.c) as values:
    what each locked operation does to them. */
module LewiAsyncSpec {
  import opened Codes
  import opened LewiQueue
  import opened LewiPop

  /** A slot of the process list; a free slot is all zeros. */
  datatype Process = Process(pid: nat, initial: nat, current: nat)

  const FREE_SLOT := Process(NOBODY, 0, 0)

  datatype Shared = Shared(idle: nat, attached: nat, reqs: seq<Request>, head: nat, procs: seq<Process>)

  /** What an operation reports to its caller. */
  datatype Reply = Reply(code: Code, newCpus: nat, out: seq<Request>, prev: nat)

  // ---------------------------------------------------------------- process list

  function Slot(procs: seq<Process>, pid: nat): (i: nat)
    ensures i <= |procs|
    ensures i < |procs| ==> procs[i].pid == pid
    ensures forall k :: 0 <= k < i ==> procs[k].pid != pid
  {
    SlotFrom(procs, pid, 0)
  }

  function SlotFrom(procs: seq<Process>, pid: nat, k: nat): (i: nat)
    requires k <= |procs|
    ensures k <= i <= |procs|
    ensures i < |procs| ==> procs[i].pid == pid
    ensures forall j :: k <= j < i ==> procs[j].pid != pid
    decreases |procs| - k
  {
    if k == |procs| || procs[k].pid == pid then k else SlotFrom(procs, pid, k + 1)
  }

  predicate Registered(procs: seq<Process>, pid: nat) {
    Slot(procs, pid) < |procs|
  }

  function CurrentOf(procs: seq<Process>, pid: nat): nat {
    if Registered(procs, pid) then procs[Slot(procs, pid)].current else 0
  }

  /** Every process receives what out grants it. */
  function Grant(procs: seq<Process>, out: seq<Request>): (r: seq<Process>)
    ensures |r| == |procs|
  {
    seq(|procs|, i requires 0 <= i < |procs| =>
      procs[i].(current := procs[i].current + Amount(out, procs[i].pid)))
  }

  ghost predicate Covers(procs: seq<Process>, out: seq<Request>) {
    forall i :: 0 <= i < |procs| ==> Amount(out, procs[i].pid) <= procs[i].current
  }

  /** Every process loses what out takes from it. VictimsAreCovered shows that the
      unsigned subtraction never wraps, so the lower limit is never met. */
  function Take(procs: seq<Process>, out: seq<Request>): (r: seq<Process>)
    ensures |r| == |procs|
  {
    seq(|procs|, i requires 0 <= i < |procs| =>
      procs[i].(current := Max(procs[i].current - Amount(out, procs[i].pid), 0)))
  }

  /** The output array names, for each request, the new total of its process. */
  function Announce(procs: seq<Process>, out: seq<Request>): (r: seq<Request>)
    ensures |r| == |out|
  {
    seq(|out|, i requires 0 <= i < |out| => Request(out[i].pid, CurrentOf(procs, out[i].pid)))
  }

  function Requeue(reqs: seq<Request>, out: seq<Request>): seq<Request> {
    if out == [] then reqs
    else
      var last := out[|out| - 1];
      Push(Requeue(reqs, out[..|out| - 1]), last.pid, last.howmany).0
  }

  predicate HasSurplus(p: Process) {
    p.pid != NOBODY && p.current > p.initial
  }

  /** The queue of victims among the first n slots. */
  function Surplus(procs: seq<Process>, n: nat): seq<Request>
    requires n <= |procs|
  {
    if n == 0 then []
    else
      var q, p := Surplus(procs, n - 1), procs[n - 1];
      if HasSurplus(p) then Push(q, p.pid, p.current - p.initial).0 else q
  }

  // ---------------------------------------------------------------- helpers under the lock

  function SetCurrent(s: Shared, i: nat, c: nat): Shared
    requires i < |s.procs|
  {
    s.(procs := s.procs[i := s.procs[i].(current := c)])
  }

  /** Move up to n idle CPUs to process i. */
  function BorrowIdle(s: Shared, i: nat, n: nat): Shared
    requires i < |s.procs|
  {
    var b := Min(s.idle, n);
    SetCurrent(s.(idle := s.idle - b), i, s.procs[i].current + b)
  }

  /** lend_ncpus_to_shmem */
  function LendNcpus(s: Shared, n: nat, max: nat): (Shared, seq<Request>) {
    if s.reqs == [] then (s.(idle := s.idle + n), [])
    else
      var p := Pop(s.reqs, n, max);
      var procs := Grant(s.procs, p.out);
      (s.(idle := s.idle + p.rest, reqs := p.left, procs := procs), Announce(procs, p.out))
  }

  /** The CPUs that reclaim_from_shmem finds for a process that misses n. */
  function Victims(s: Shared, n: nat, max: nat): Popped {
    Pop(Surplus(s.procs, |s.procs|), n, max)
  }

  /** Victims lose what out names and are queued again for it. */
  function Robbed(s: Shared, out: seq<Request>): Shared {
    s.(reqs := Requeue(s.reqs, out), procs := Take(s.procs, out))
  }

  /** reclaim_from_shmem */
  function ReclaimFrom(s: Shared, i: nat, n: nat, max: nat): (Shared, seq<Request>, Code)
    requires i < |s.procs|
  {
    var p := Victims(s, n, max);
    if p.rest == 0 then
      var t := Robbed(s, p.out);
      (SetCurrent(t, i, t.procs[i].current + n), Announce(t.procs, p.out), Success)
    else (s, p.out, ErrReqst)
  }

  /** Bring process i up by n CPUs: idle ones first, then those of the victims. */
  function BorrowThenReclaim(s: Shared, i: nat, n: nat, max: nat): (Shared, seq<Request>, Code)
    requires i < |s.procs|
  {
    var b := Min(s.idle, n);
    var t := BorrowIdle(s, i, n);
    if n - b > 0 then ReclaimFrom(t, i, n - b, max)
    else (t, [], if b > 0 then Success else NoUpdt)
  }

  // ---------------------------------------------------------------- state invariant

  ghost predicate UniquePids(procs: seq<Process>) {
    forall i, j :: 0 <= i < j < |procs| && procs[i].pid != NOBODY ==> procs[i].pid != procs[j].pid
  }

  ghost predicate FreeSlotsClear(procs: seq<Process>) {
    forall i :: 0 <= i < |procs| && procs[i].pid == NOBODY ==> procs[i] == FREE_SLOT
  }

  ghost predicate HeadBounds(procs: seq<Process>, head: nat) {
    head <= |procs| && forall i :: head <= i < |procs| ==> procs[i].pid == NOBODY
  }

  ghost predicate AllRegistered(procs: seq<Process>, q: seq<Request>) {
    forall j :: 0 <= j < |q| ==> q[j].pid != NOBODY && Registered(procs, q[j].pid)
  }

  function Occupied(procs: seq<Process>): nat {
    if procs == [] then 0
    else Occupied(procs[..|procs| - 1]) + if procs[|procs| - 1].pid != NOBODY then 1 else 0
  }

  ghost predicate Valid(s: Shared) {
    && UniquePids(s.procs) && FreeSlotsClear(s.procs) && HeadBounds(s.procs, s.head)
    && s.attached == Occupied(s.procs)
    && Packed(s.reqs) && AllRegistered(s.procs, s.reqs)
  }

  function CurrentSum(procs: seq<Process>): nat {
    if procs == [] then 0 else CurrentSum(procs[..|procs| - 1]) + procs[|procs| - 1].current
  }

  function InitialSum(procs: seq<Process>): nat {
    if procs == [] then 0 else InitialSum(procs[..|procs| - 1]) + procs[|procs| - 1].initial
  }

  /** No CPU is created or lost. */
  ghost predicate Conserved(s: Shared) {
    s.idle + CurrentSum(s.procs) == InitialSum(s.procs)
  }

  /** Idle CPUs and pending requests never coexist. */
  ghost predicate NoIdleWhilePending(s: Shared) {
    s.idle > 0 ==> s.reqs == []
  }

  /** Nothing created or lost between two states with the same registered processes. */
  ghost predicate Balanced(s: Shared, t: Shared) {
    && Valid(t)
    && t.idle + CurrentSum(t.procs) == s.idle + CurrentSum(s.procs)
    && InitialSum(t.procs) == InitialSum(s.procs)
  }

  // ---------------------------------------------------------------- sums

  lemma {:induction false} SetSums(procs: seq<Process>, i: nat, p: Process)
    requires i < |procs|
    ensures CurrentSum(procs[i := p]) == CurrentSum(procs) - procs[i].current + p.current
    ensures InitialSum(procs[i := p]) == InitialSum(procs) - procs[i].initial + p.initial
    ensures Occupied(procs[i := p]) == Occupied(procs)
         - (if procs[i].pid != NOBODY then 1 else 0) + (if p.pid != NOBODY then 1 else 0)
  {
    var last := |procs| - 1;
    if i == last {
      assert procs[i := p][..last] == procs[..last];
    } else {
      SetSums(procs[..last], i, p);
      assert procs[i := p][..last] == procs[..last][i := p];
    }
  }

  lemma {:induction false} SameSums(procs: seq<Process>, r: seq<Process>)
    requires |r| == |procs|
    requires forall i :: 0 <= i < |r| ==> r[i].pid == procs[i].pid && r[i].initial == procs[i].initial
    ensures InitialSum(r) == InitialSum(procs) && Occupied(r) == Occupied(procs)
  {
    if procs != [] { SameSums(procs[..|procs| - 1], r[..|r| - 1]); }
  }

  /** Operations that only move CPUs keep the layout of the process list. */
  ghost predicate SameLayout(procs: seq<Process>, r: seq<Process>) {
    && |r| == |procs|
    && forall i :: 0 <= i < |r| ==> r[i].pid == procs[i].pid && r[i].initial == procs[i].initial
  }

  lemma LayoutKeepsSlots(procs: seq<Process>, r: seq<Process>, pid: nat)
    requires SameLayout(procs, r)
    ensures Slot(r, pid) == Slot(procs, pid)
  {
  }

  /** A change of counters only, with free slots untouched, keeps everything but the sums. */
  lemma LayoutKeepsValid(s: Shared, t: Shared)
    requires Valid(s) && SameLayout(s.procs, t.procs)
    requires forall i :: 0 <= i < |s.procs| && s.procs[i].pid == NOBODY ==> t.procs[i].current == 0
    requires t.attached == s.attached && t.head == s.head
    requires Packed(t.reqs) && AllRegistered(s.procs, t.reqs)
    ensures Valid(t) && InitialSum(t.procs) == InitialSum(s.procs)
  {
    SameSums(s.procs, t.procs);
    forall j | 0 <= j < |t.reqs| ensures Registered(t.procs, t.reqs[j].pid) {
      LayoutKeepsSlots(s.procs, t.procs, t.reqs[j].pid);
    }
  }

  lemma SetCurrentKeeps(s: Shared, i: nat, c: nat)
    requires Valid(s) && i < |s.procs| && s.procs[i].pid != NOBODY
    ensures Valid(SetCurrent(s, i, c))
    ensures CurrentSum(SetCurrent(s, i, c).procs) == CurrentSum(s.procs) - s.procs[i].current + c
    ensures InitialSum(SetCurrent(s, i, c).procs) == InitialSum(s.procs)
  {
    SetSums(s.procs, i, s.procs[i].(current := c));
    LayoutKeepsValid(s, SetCurrent(s, i, c));
  }

  // ---------------------------------------------------------------- granting and taking

  lemma GrantSnoc(procs: seq<Process>, out: seq<Request>, x: Request)
    requires UniquePids(procs) && Registered(procs, x.pid) && x.pid != NOBODY
    ensures var i := Slot(procs, x.pid);
            var g := Grant(procs, out);
            Grant(procs, out + [x]) == g[i := g[i].(current := g[i].current + x.howmany)]
  {
    var i, g := Slot(procs, x.pid), Grant(procs, out);
    var r := g[i := g[i].(current := g[i].current + x.howmany)];
    forall k | 0 <= k < |procs| ensures Grant(procs, out + [x])[k] == r[k] {
      AmountConcat(out, [x], procs[k].pid);
      AmountSingle(x, procs[k].pid);
    }
  }

  lemma {:induction false} GrantSum(procs: seq<Process>, out: seq<Request>)
    requires UniquePids(procs) && AllRegistered(procs, out)
    ensures CurrentSum(Grant(procs, out)) == CurrentSum(procs) + Total(out)
    ensures SameLayout(procs, Grant(procs, out))
  {
    if out == [] {
      assert Grant(procs, out) == procs;
    } else {
      var a, x := out[..|out| - 1], out[|out| - 1];
      assert out == a + [x];
      GrantSum(procs, a);
      hide Grant;
      GrantSnoc(procs, a, x);
      var i, g := Slot(procs, x.pid), Grant(procs, a);
      SetSums(g, i, g[i].(current := g[i].current + x.howmany));
    }
  }

  /** Taking is the inverse of granting. */
  lemma TakeSum(procs: seq<Process>, out: seq<Request>)
    requires UniquePids(procs) && AllRegistered(procs, out) && Covers(procs, out)
    ensures CurrentSum(Take(procs, out)) == CurrentSum(procs) - Total(out)
    ensures SameLayout(procs, Take(procs, out))
  {
    hide CurrentSum, Total;
    var r := Take(procs, out);
    assert SameLayout(procs, r);
    forall j | 0 <= j < |out| ensures Registered(r, out[j].pid) {
      LayoutKeepsSlots(procs, r, out[j].pid);
    }
    GrantSum(r, out);
    assert Grant(r, out) == procs;
  }

  lemma NobodyGetsNothing(procs: seq<Process>, out: seq<Request>)
    requires AllRegistered(procs, out)
    ensures Amount(out, NOBODY) == 0
  {
    AmountAbsent(out, NOBODY);
  }

  // ---------------------------------------------------------------- lending

  lemma LendKeeps(s: Shared, n: nat, max: nat)
    requires Valid(s)
    ensures var t := LendNcpus(s, n, max).0;
            && Valid(t)
            && t.idle + CurrentSum(t.procs) == s.idle + CurrentSum(s.procs) + n
            && InitialSum(t.procs) == InitialSum(s.procs)
  {
    if s.reqs != [] {
      var p := Pop(s.reqs, n, max);
      PopMeetsContract(s.reqs, n, max);
      SubsetRegistered(s.procs, s.reqs, p.out);
      SubsetRegistered(s.procs, s.reqs, p.left);
      GrantSum(s.procs, p.out);
      NobodyGetsNothing(s.procs, p.out);
      LayoutKeepsValid(s, LendNcpus(s, n, max).0);
    }
  }

  lemma SubsetRegistered(procs: seq<Process>, q: seq<Request>, r: seq<Request>)
    requires AllRegistered(procs, q) && Pids(r) <= Pids(q)
    ensures AllRegistered(procs, r)
  {
    forall j | 0 <= j < |r| ensures r[j].pid != NOBODY && Registered(procs, r[j].pid) {
      assert r[j].pid in Pids(q);
    }
  }

  /** A lender without requests in the queue keeps exactly the count it was left with. */
  lemma LendSkipsLender(s: Shared, n: nat, max: nat, i: nat)
    requires Valid(s) && i < |s.procs| && s.procs[i].pid !in Pids(s.reqs)
    ensures LendNcpus(s, n, max).0.procs[i] == s.procs[i]
    ensures s.procs[i].pid !in Pids(LendNcpus(s, n, max).1)
  {
    if s.reqs != [] {
      var p := Pop(s.reqs, n, max);
      PopMeetsContract(s.reqs, n, max);
      AmountAbsent(p.out, s.procs[i].pid);
      var a := LendNcpus(s, n, max).1;
      forall j | 0 <= j < |a| ensures a[j].pid in Pids(s.reqs) {
        assert p.out[j].pid in Pids(p.out);
      }
    }
  }

  // ---------------------------------------------------------------- victims

  function SurplusSum(procs: seq<Process>, n: nat): nat
    requires n <= |procs|
  {
    if n == 0 then 0
    else
      var p := procs[n - 1];
      SurplusSum(procs, n - 1) + if HasSurplus(p) then p.current - p.initial else 0
  }

  function SurplusCount(procs: seq<Process>, n: nat): nat
    requires n <= |procs|
  {
    if n == 0 then 0 else SurplusCount(procs, n - 1) + if HasSurplus(procs[n - 1]) then 1 else 0
  }

  /** The surplus of the victims that the queue has room for: the first QUEUE_CAPACITY of them. */
  function ListedSurplus(procs: seq<Process>, n: nat): nat
    requires n <= |procs|
  {
    if n == 0 then 0
    else
      var p := procs[n - 1];
      ListedSurplus(procs, n - 1) +
      if HasSurplus(p) && SurplusCount(procs, n - 1) < QUEUE_CAPACITY then p.current - p.initial else 0
  }

  lemma {:induction false} AllListed(procs: seq<Process>, n: nat)
    requires n <= |procs| && SurplusCount(procs, n) <= QUEUE_CAPACITY
    ensures ListedSurplus(procs, n) == SurplusSum(procs, n)
  {
    if n > 0 {
      AllListed(procs, n - 1);
    }
  }

  /** The queue of victims holds the surplus of each, as far as it has room. */
  ghost predicate SurplusListed(procs: seq<Process>, n: nat, q: seq<Request>)
    requires n <= |procs|
  {
    && Packed(q) && |q| == Min(SurplusCount(procs, n), QUEUE_CAPACITY) && Total(q) == ListedSurplus(procs, n)
    && (forall j :: 0 <= j < |q| ==> IsVictim(procs, n, q[j]))
  }

  ghost predicate IsVictim(procs: seq<Process>, n: nat, x: Request)
    requires n <= |procs|
  {
    exists i :: 0 <= i < n && HasSurplus(procs[i]) && x == SurplusOf(procs[i])
  }

  function SurplusOf(p: Process): Request
    requires HasSurplus(p)
  {
    Request(p.pid, p.current - p.initial)
  }

  lemma SurplusGrows(procs: seq<Process>, n: nat, q: seq<Request>)
    requires UniquePids(procs) && 0 < n <= |procs| && SurplusListed(procs, n - 1, q)
    requires HasSurplus(procs[n - 1])
    ensures SurplusListed(procs, n, Push(q, procs[n - 1].pid, SurplusOf(procs[n - 1]).howmany).0)
  {
    hide Amount, Total, Remove;
    var x := SurplusOf(procs[n - 1]);
    forall j | 0 <= j < |q| ensures q[j].pid != x.pid && IsVictim(procs, n, q[j]) {
      assert IsVictim(procs, n - 1, q[j]);
    }
    assert x.pid !in Pids(q);
    AppendEntry(q, x);
    AmountConcat(q, [x], 0);
    AmountSingle(x, 0);
    assert IsVictim(procs, n, x);
  }

  lemma {:induction false} SurplusIsListed(procs: seq<Process>, n: nat)
    requires UniquePids(procs) && n <= |procs|
    ensures SurplusListed(procs, n, Surplus(procs, n))
  {
    if n > 0 {
      SurplusIsListed(procs, n - 1);
      if HasSurplus(procs[n - 1]) {
        hide SurplusListed;
        SurplusGrows(procs, n, Surplus(procs, n - 1));
      } else {
        var q := Surplus(procs, n - 1);
        forall j | 0 <= j < |q| ensures IsVictim(procs, n, q[j]) {
          assert IsVictim(procs, n - 1, q[j]);
        }
      }
    }
  }

  /** No victim has less than its surplus taken away. */
  lemma VictimsAreCovered(s: Shared, n: nat, max: nat)
    requires Valid(s)
    ensures var p := Victims(s, n, max);
            && Keyed(p.out) && Positive(p.out) && AllRegistered(s.procs, p.out)
            && forall i :: 0 <= i < |s.procs| ==>
                 Amount(p.out, s.procs[i].pid) <= Max(s.procs[i].current - s.procs[i].initial, 0)
  {
    var q, p := Surplus(s.procs, |s.procs|), Victims(s, n, max);
    SurplusIsListed(s.procs, |s.procs|);
    PopMeetsContract(q, n, max);
    forall j | 0 <= j < |q| ensures q[j].pid != NOBODY && Registered(s.procs, q[j].pid) {
      assert IsVictim(s.procs, |s.procs|, q[j]);
    }
    SubsetRegistered(s.procs, q, p.out);
    forall i | 0 <= i < |s.procs|
      ensures Amount(p.out, s.procs[i].pid) <= Max(s.procs[i].current - s.procs[i].initial, 0)
    {
      SurplusOfSlot(s, i);
    }
  }

  lemma SurplusOfSlot(s: Shared, i: nat)
    requires Valid(s) && i < |s.procs| && SurplusListed(s.procs, |s.procs|, Surplus(s.procs, |s.procs|))
    ensures Amount(Surplus(s.procs, |s.procs|), s.procs[i].pid)
         <= Max(s.procs[i].current - s.procs[i].initial, 0)
  {
    var q := Surplus(s.procs, |s.procs|);
    if s.procs[i].pid in Pids(q) {
      var j :| 0 <= j < |q| && q[j].pid == s.procs[i].pid;
      AmountAt(q, j);
      assert IsVictim(s.procs, |s.procs|, q[j]);
    } else {
      AmountAbsent(q, s.procs[i].pid);
    }
  }

  /** Over the first n slots, whatever one process misses is in surplus elsewhere. */
  lemma {:induction false} SurplusCoversDeficits(procs: seq<Process>, n: nat, i: nat)
    requires FreeSlotsClear(procs) && n <= |procs|
    ensures SurplusSum(procs, n) + InitialSum(procs[..n])
         >= CurrentSum(procs[..n]) + (if i < n then Max(procs[i].initial - procs[i].current, 0) else 0)
  {
    if n > 0 {
      assert procs[..n][..n - 1] == procs[..n - 1];
      SurplusCoversDeficits(procs, n - 1, i);
    }
  }

  // ---------------------------------------------------------------- requeueing

  lemma {:induction false} OccupiedBound(procs: seq<Process>, ids: set<nat>)
    requires NOBODY !in ids
    requires forall p :: p in ids ==> exists i :: 0 <= i < |procs| && procs[i].pid == p
    ensures |ids| <= Occupied(procs)
  {
    if procs == [] {
      assert ids == {};
    } else {
      var a, last := procs[..|procs| - 1], procs[|procs| - 1];
      forall p | p in ids - {last.pid} ensures exists i :: 0 <= i < |a| && a[i].pid == p {
        var i :| 0 <= i < |procs| && procs[i].pid == p;
        assert a[i].pid == p;
      }
      OccupiedBound(a, ids - {last.pid});
      if last.pid in ids {
        assert |ids| == |ids - {last.pid}| + 1;
      } else {
        assert ids == ids - {last.pid};
      }
    }
  }

  lemma {:induction false} KeyedCount(q: seq<Request>)
    requires Keyed(q)
    ensures |Pids(q)| == |q|
  {
    if q != [] {
      var a, last := q[..|q| - 1], q[|q| - 1];
      KeyedCount(a);
      forall p | p in Pids(q) ensures p in Pids(a) + {last.pid} {
        var i :| 0 <= i < |q| && q[i].pid == p;
        assert i < |a| ==> a[i].pid == p;
      }
      forall p | p in Pids(a) ensures p in Pids(q) && p != last.pid {
        var i :| 0 <= i < |a| && a[i].pid == p;
        assert q[i].pid == p;
      }
      assert q[|a|].pid == last.pid;
      assert Pids(q) == Pids(a) + {last.pid};
    }
  }

  /** Keys are unique, so the queue only fills up with more than QUEUE_CAPACITY processes. */
  lemma RegisteredHasRoom(procs: seq<Process>, q: seq<Request>, pid: nat)
    requires Keyed(q) && AllRegistered(procs, q)
    requires pid != NOBODY && Registered(procs, pid) && Occupied(procs) <= QUEUE_CAPACITY
    ensures HasRoom(q, pid)
  {
    if pid !in Pids(q) {
      KeyedCount(q);
      var ids := Pids(q) + {pid};
      assert |ids| == |q| + 1;
      forall p | p in ids ensures exists i :: 0 <= i < |procs| && procs[i].pid == p {
        assert Registered(procs, p);
        assert procs[Slot(procs, p)].pid == p;
      }
      OccupiedBound(procs, ids);
    }
  }

  lemma {:induction false} RequeueKeeps(procs: seq<Process>, q: seq<Request>, out: seq<Request>)
    requires Packed(q) && AllRegistered(procs, q) && Positive(out) && AllRegistered(procs, out)
    ensures Packed(Requeue(q, out)) && AllRegistered(procs, Requeue(q, out))
  {
    if out != [] {
      var last := out[|out| - 1];
      RequeueKeeps(procs, q, out[..|out| - 1]);
      var r := Requeue(q, out[..|out| - 1]);
      PushAdds(r, last.pid, last.howmany);
      var t := Requeue(q, out);
      forall j | 0 <= j < |t| ensures t[j].pid != NOBODY && Registered(procs, t[j].pid) {
        assert t[j].pid in Pids(t);
        assert t[j].pid in Pids(r) + {last.pid};
      }
    }
  }

  /** How many of the first n victims are not in the queue yet. */
  function Newcomers(q: seq<Request>, out: seq<Request>, n: nat): nat
    requires n <= |out|
  {
    if n == 0 then 0 else Newcomers(q, out, n - 1) + if out[n - 1].pid in Pids(q) then 0 else 1
  }

  /** The queue has room for victim j of out when its turn comes. */
  predicate FindsRoom(q: seq<Request>, out: seq<Request>, j: nat)
    requires j < |out|
  {
    out[j].pid in Pids(q) || |q| + Newcomers(q, out, j) < QUEUE_CAPACITY
  }

  /** pid is not one of the victims that the queue has no room for. */
  predicate Requeued(q: seq<Request>, out: seq<Request>, pid: nat) {
    forall j :: 0 <= j < |out| && out[j].pid == pid ==> FindsRoom(q, out, j)
  }

  lemma RequeuedPrefix(q: seq<Request>, a: seq<Request>, x: Request, pid: nat)
    ensures Requeued(q, a + [x], pid) <==> Requeued(q, a, pid) && (x.pid == pid ==> FindsRoom(q, a + [x], |a|))
  {
    var out := a + [x];
    forall j | 0 <= j < |a| ensures out[j] == a[j] && (FindsRoom(q, out, j) <==> FindsRoom(q, a, j)) {
      NewcomersPrefix(q, a, x, j);
    }
    assert out[|a|] == x;
  }

  lemma {:induction false} NewcomersPrefix(q: seq<Request>, a: seq<Request>, x: Request, n: nat)
    requires n <= |a|
    ensures Newcomers(q, a + [x], n) == Newcomers(q, a, n)
  {
    if n > 0 {
      NewcomersPrefix(q, a, x, n - 1);
    }
  }

  /** The queue after pushing the victims back: its length and who is in it. */
  lemma {:induction false} RequeueSize(q: seq<Request>, out: seq<Request>)
    requires Packed(q) && Positive(out) && Keyed(out) && Named(out)
    ensures var t := Requeue(q, out);
      && Packed(t) && |t| == Min(|q| + Newcomers(q, out, |out|), QUEUE_CAPACITY)
      && Pids(q) <= Pids(t) && (forall p :: p in Pids(t) ==> p in Pids(q) || p in Pids(out))
  {
    if out != [] {
      var a, last := out[..|out| - 1], out[|out| - 1];
      assert out == a + [last];
      RequeueSize(q, a);
      NewcomersPrefix(q, a, last, |a|);
      var r := Requeue(q, a);
      PushAdds(r, last.pid, last.howmany);
      PushLength(r, last.pid, last.howmany);
      NotAmong(a, last);
      hide Push, Packed, Newcomers, Pids;
      LastPids(a, last);
      assert Newcomers(q, out, |out|) == Newcomers(q, out, |a|) + (if last.pid in Pids(q) then 0 else 1) by { LastNewcomer(q, out); }
    }
  }

  lemma LastNewcomer(q: seq<Request>, out: seq<Request>)
    requires out != []
    ensures Newcomers(q, out, |out|) == Newcomers(q, out, |out| - 1) + if out[|out| - 1].pid in Pids(q) then 0 else 1
  {
  }

  lemma LastPids(a: seq<Request>, x: Request)
    ensures forall p :: p in Pids(a + [x]) <==> p in Pids(a) || p == x.pid
  {
    var out := a + [x];
    assert out[|a|] == x;
    forall p | p in Pids(a) ensures p in Pids(out) {
      var j :| 0 <= j < |a| && a[j].pid == p;
      assert out[j].pid == p;
    }
  }

  lemma NotAmong(a: seq<Request>, x: Request)
    requires Keyed(a + [x])
    ensures x.pid !in Pids(a)
  {
    var out := a + [x];
    assert out[|a|] == x;
    forall j | 0 <= j < |a| ensures a[j].pid != x.pid {
      assert out[j].pid != out[|a|].pid;
    }
  }

  lemma PushLength(q: seq<Request>, pid: nat, howmany: nat)
    requires pid != NOBODY && howmany > 0
    ensures |Push(q, pid, howmany).0| == if pid !in Pids(q) && |q| != QUEUE_CAPACITY then |q| + 1 else |q|
  {
    var i := IndexOf(q, pid);
    assert i < |q| ==> q[i].pid in Pids(q);
  }

  /** Each victim is queued again for exactly what it lost, exactly when the queue has room for it at its turn. */
  lemma {:induction false} RequeueAdds(q: seq<Request>, out: seq<Request>, pid: nat)
    requires Packed(q) && Positive(out) && Keyed(out) && Named(out)
    ensures Amount(Requeue(q, out), pid) == Amount(q, pid) + if Requeued(q, out, pid) then Amount(out, pid) else 0
  {
    if out != [] {
      var a, last := out[..|out| - 1], out[|out| - 1];
      assert out == a + [last];
      RequeueAdds(q, a, pid);
      RequeueSize(q, a);
      NewcomersPrefix(q, a, last, |a|);
      RequeuedPrefix(q, a, last, pid);
      NotAmong(a, last);
      var r := Requeue(q, a);
      PushAdds(r, last.pid, last.howmany);
      if last.pid == pid {
        AmountAbsent(a, pid);
        NoVictim(q, a, pid);
      }
      hide Push, Packed, Newcomers, Requeued, Pids, Requeue;
      assert HasRoom(r, last.pid) <==> FindsRoom(q, out, |a|) by { LastFindsRoom(q, out); }
    }
  }

  lemma NoVictim(q: seq<Request>, out: seq<Request>, pid: nat)
    requires pid !in Pids(out)
    ensures Requeued(q, out, pid)
  {
    forall j | 0 <= j < |out| ensures out[j].pid != pid {
      assert out[j].pid in Pids(out);
    }
  }

  lemma LastFindsRoom(q: seq<Request>, out: seq<Request>)
    requires Packed(q) && Positive(out) && Keyed(out) && Named(out) && out != []
    ensures HasRoom(Requeue(q, out[..|out| - 1]), out[|out| - 1].pid) <==> FindsRoom(q, out, |out| - 1)
  {
    var a, last := out[..|out| - 1], out[|out| - 1];
    assert out == a + [last];
    RequeueSize(q, a);
    NewcomersPrefix(q, a, last, |a|);
    NotAmong(a, last);
  }

  /** With at most QUEUE_CAPACITY processes there is room for all. */
  lemma FewFindRoom(procs: seq<Process>, q: seq<Request>, out: seq<Request>, pid: nat)
    requires Packed(q) && AllRegistered(procs, q) && Positive(out) && Keyed(out) && AllRegistered(procs, out)
    requires Occupied(procs) <= QUEUE_CAPACITY
    ensures Requeued(q, out, pid)
  {
    forall j | 0 <= j < |out| && out[j].pid == pid ensures FindsRoom(q, out, j) {
      var a := out[..j + 1];
      assert a[..j] == out[..j] && a[j] == out[j];
      forall k | 0 <= k < |a| ensures a[k] == out[k] && a[k].pid != NOBODY && Registered(procs, a[k].pid) {
      }
      RequeueKeeps(procs, q, out[..j]);
      RegisteredHasRoom(procs, Requeue(q, out[..j]), out[j].pid);
      LastFindsRoom(q, a);
      SamePrefix(q, out, a, j);
    }
  }

  lemma {:induction false} SamePrefix(q: seq<Request>, a: seq<Request>, b: seq<Request>, n: nat)
    requires n <= |a| && n <= |b| && forall k :: 0 <= k < n ==> a[k] == b[k]
    ensures Newcomers(q, a, n) == Newcomers(q, b, n)
  {
    if n > 0 {
      SamePrefix(q, a, b, n - 1);
    }
  }

  // ---------------------------------------------------------------- reclaiming

  lemma RobbedKeeps(s: Shared, out: seq<Request>)
    requires Valid(s) && Positive(out) && AllRegistered(s.procs, out) && Covers(s.procs, out)
    ensures Valid(Robbed(s, out)) && SameLayout(s.procs, Robbed(s, out).procs)
    ensures Robbed(s, out).idle == s.idle && |Robbed(s, out).procs| == |s.procs|
    ensures forall i :: 0 <= i < |s.procs| ==> Robbed(s, out).procs[i].pid == s.procs[i].pid
    ensures CurrentSum(Robbed(s, out).procs) == CurrentSum(s.procs) - Total(out)
    ensures InitialSum(Robbed(s, out).procs) == InitialSum(s.procs)
  {
    hide Requeue, CurrentSum, InitialSum;
    TakeSum(s.procs, out);
    RequeueKeeps(s.procs, s.reqs, out);
    NobodyGetsNothing(s.procs, out);
    LayoutKeepsValid(s, Robbed(s, out));
  }

  lemma Gain(s: Shared, t: Shared, i: nat, n: nat)
    requires Valid(t) && t.idle == s.idle && i < |t.procs| && t.procs[i].pid != NOBODY
    requires CurrentSum(t.procs) + n == CurrentSum(s.procs) && InitialSum(t.procs) == InitialSum(s.procs)
    ensures Balanced(s, SetCurrent(t, i, t.procs[i].current + n))
  {
    SetCurrentKeeps(t, i, t.procs[i].current + n);
  }

  lemma HandOver(s: Shared, i: nat, out: seq<Request>)
    requires Valid(s) && Positive(out) && AllRegistered(s.procs, out) && Covers(s.procs, out)
    requires i < |s.procs| && s.procs[i].pid != NOBODY
    ensures Balanced(s, SetCurrent(Robbed(s, out), i, Robbed(s, out).procs[i].current + Total(out)))
  {
    hide *;
    RobbedKeeps(s, out);
    Gain(s, Robbed(s, out), i, Total(out));
  }

  lemma VictimsTotal(s: Shared, n: nat, max: nat)
    requires Valid(s)
    ensures var p := Victims(s, n, max);
            && Total(p.out) + p.rest == n
            && Positive(p.out) && AllRegistered(s.procs, p.out) && Covers(s.procs, p.out)
  {
    VictimsAreCovered(s, n, max);
    SurplusIsListed(s.procs, |s.procs|);
    PopAmounts(Surplus(s.procs, |s.procs|), n, max, 0);
  }

  lemma ReclaimKeeps(s: Shared, i: nat, n: nat, max: nat)
    requires Valid(s) && i < |s.procs| && s.procs[i].pid != NOBODY
    ensures Balanced(s, ReclaimFrom(s, i, n, max).0)
  {
    hide Robbed, SetCurrent, Valid, CurrentSum, InitialSum, Surplus, Pop, Covers, Positive, AllRegistered;
    VictimsTotal(s, n, max);
    if Victims(s, n, max).rest == 0 {
      HandOver(s, i, Victims(s, n, max).out);
    }
  }

  /** The victims that the surplus queue can list have n CPUs to give, and the output array room to name them. */
  predicate Collectable(s: Shared, n: nat, max: nat) {
    && n <= ListedSurplus(s.procs, |s.procs|)
    && Min(n, Min(SurplusCount(s.procs, |s.procs|), QUEUE_CAPACITY)) <= max
  }

  /** reclaim_from_shmem fails only for lack of room: in the output array, or, with more than QUEUE_CAPACITY
      victims, in the surplus queue. With fewer victims there is always enough to reclaim. */
  lemma ReclaimSucceeds(s: Shared, i: nat, n: nat, max: nat)
    requires Valid(s) && Conserved(s) && s.idle == 0
    requires i < |s.procs| && s.procs[i].initial >= s.procs[i].current + n && n > 0
    ensures ReclaimFrom(s, i, n, max).2 == Success <==> Collectable(s, n, max)
    ensures SurplusCount(s.procs, |s.procs|) <= QUEUE_CAPACITY ==>
      (Collectable(s, n, max) <==> Min(n, SurplusCount(s.procs, |s.procs|)) <= max)
  {
    SurplusIsListed(s.procs, |s.procs|);
    PopMeetsContract(Surplus(s.procs, |s.procs|), n, max);
    SurplusCoversDeficits(s.procs, |s.procs|, i);
    assert s.procs[..|s.procs|] == s.procs;
    if SurplusCount(s.procs, |s.procs|) <= QUEUE_CAPACITY {
      AllListed(s.procs, |s.procs|);
    }
  }

  /** What a successful reclaim, which takes out from the victims, does to process k: the caller gains n, nobody
      else gains, no victim drops below its initial count, and each is queued again for its loss if the queue has
      room for it. */
  ghost predicate ReclaimedFairly(s: Shared, t: Shared, out: seq<Request>, i: nat, n: nat, k: nat)
    requires i < |s.procs| && k < |s.procs| && |t.procs| == |s.procs|
  {
    var was, now := s.procs[k].current, t.procs[k].current;
    if k == i then now == was + n
    else
      && now <= was && (now < was ==> now >= s.procs[k].initial)
      && Amount(t.reqs, s.procs[k].pid) == Amount(s.reqs, s.procs[k].pid) +
           if Requeued(s.reqs, out, s.procs[k].pid) then was - now else 0
  }

  lemma ReclaimEffect(s: Shared, i: nat, n: nat, max: nat, k: nat)
    requires Valid(s) && i < |s.procs| && s.procs[i].initial >= s.procs[i].current && k < |s.procs|
    requires ReclaimFrom(s, i, n, max).2 == Success
    ensures ReclaimedFairly(s, ReclaimFrom(s, i, n, max).0, Victims(s, n, max).out, i, n, k)
    ensures Occupied(s.procs) <= QUEUE_CAPACITY ==> Requeued(s.reqs, Victims(s, n, max).out, s.procs[k].pid)
  {
    var p := Victims(s, n, max);
    VictimsAreCovered(s, n, max);
    hide Victims, Amount, Keyed, Positive, Packed, Occupied, CurrentSum, InitialSum;
    assert Named(p.out);
    RequeueAdds(s.reqs, p.out, s.procs[k].pid);
    if Occupied(s.procs) <= QUEUE_CAPACITY {
      FewFindRoom(s.procs, s.reqs, p.out, s.procs[k].pid);
    }
    hide Requeued, Requeue, Registered, AllRegistered, Named;
    RobbedOf(s, p.out, k);
    RobbedOf(s, p.out, i);
  }

  lemma RobbedOf(s: Shared, out: seq<Request>, k: nat)
    requires k < |s.procs| && Amount(out, s.procs[k].pid) <= s.procs[k].current
    ensures Robbed(s, out).procs[k] == s.procs[k].(current := s.procs[k].current - Amount(out, s.procs[k].pid))
  {
  }
}
