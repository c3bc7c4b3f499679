/** How many CPUs, and which, the operations on numbers of CPUs take (src/LB_comm/shmem_cpuinfo.c). */
module CpuinfoCounts {
  import opened Codes
  import opened CpuinfoSpec
  import opened CpuinfoActs
  import opened CpuinfoOps
  import opened CpuinfoOccupied
  import opened CpuinfoEffects

  /** Whether pid can have a CPU: its own one unless it has it already, and when borrowing only an idle one; another
      one only when it is lent and idle. */
  predicate Obtainable(cpu: Cpu, pid: Pid, wish: Wish) {
    match wish
    case Borrowing => cpu.state != CpuState.Disabled && cpu.guest == NOBODY && (cpu.owner == pid || cpu.state == Lent)
    case _ => cpu.owner == pid && cpu.guest != pid
  }

  /** The CPUs of the list from position i on that pid can have. */
  function Line(s: State, pid: Pid, wish: Wish, list: seq<nat>, i: nat): seq<nat>
    requires InTable(s, list)
    decreases |list| - i
  {
    if i >= |list| then []
    else (if Obtainable(s.cpus[list[i]], pid, wish) then [list[i]] else []) + Line(s, pid, wish, list, i + 1)
  }

  function First(q: seq<nat>, n: int): (r: seq<nat>)
    ensures |r| == Min(Max(n, 0), |q|)
  {
    q[..Min(Max(n, 0), |q|)]
  }

  /** A CPU that pid took: an owner has it busy, and a guest in use stays until it returns. */
  function Taken(cpu: Cpu, pid: Pid): Cpu {
    cpu.(guest := if cpu.guest == NOBODY then pid else cpu.guest, state := if cpu.owner == pid then Busy else cpu.state)
  }

  /** Who is told when pid takes the CPUs of q: their guests to stop, and pid to start. */
  function Calls(s: State, pid: Pid, q: seq<nat>): seq<Task>
    requires InTable(s, q)
  {
    if q == [] then []
    else (if s.cpus[q[0]].guest == NOBODY then [] else [Task(Disable, s.cpus[q[0]].guest, q[0])])
         + [Task(Enable, pid, q[0])] + Calls(s, pid, q[1..])
  }

  ghost predicate Distinct(q: seq<nat>) {
    forall i, j :: 0 <= i < j < |q| ==> q[i] != q[j]
  }

  /** Every CPU of q is as pid takes it, and every other one as it was. */
  ghost predicate TookExactly(s: State, t: State, pid: Pid, q: seq<nat>)
    requires InTable(s, q)
  {
    && SameTopology(s, t) && t.petitions == s.petitions && t.tasks == s.tasks + Calls(s, pid, q)
    && forall d :: 0 <= d < |s.cpus| ==> t.cpus[d] == if d in q then Taken(s.cpus[d], pid) else s.cpus[d]
  }

  /** The answer for taking the CPUs of q: Noted if one of them is still in use, and Success if any was taken. */
  ghost predicate Answers(s: State, q: seq<nat>, was: Code, code: Code)
    requires InTable(s, q)
  {
    && (code == Noted <==> was == Noted || exists c :: c in q && s.cpus[c].guest != NOBODY)
    && (q == [] ==> code == was) && (q != [] && code != Noted ==> code == Success)
  }

  // ---------------------------------------------------------------- lists

  lemma {:induction false} LineListed(s: State, pid: Pid, wish: Wish, list: seq<nat>, i: nat, c: nat)
    requires InTable(s, list)
    ensures InTable(s, Line(s, pid, wish, list, i))
    ensures c in Line(s, pid, wish, list, i) <==>
      exists k :: i <= k < |list| && list[k] == c && Obtainable(s.cpus[list[k]], pid, wish)
    decreases |list| - i
  {
    if i < |list| {
      LineListed(s, pid, wish, list, i + 1, c);
      assert i <= i < |list|;
    }
  }

  lemma {:induction false} LineDistinct(s: State, pid: Pid, wish: Wish, list: seq<nat>, i: nat)
    requires InTable(s, list) && Distinct(list)
    ensures Distinct(Line(s, pid, wish, list, i))
    decreases |list| - i
  {
    if i < |list| {
      LineDistinct(s, pid, wish, list, i + 1);
      LineListed(s, pid, wish, list, i + 1, list[i]);
    }
  }

  lemma {:induction false} LineSame(s: State, t: State, pid: Pid, wish: Wish, list: seq<nat>, i: nat)
    requires InTable(s, list) && |t.cpus| == |s.cpus| && forall k :: i <= k < |list| ==> t.cpus[list[k]] == s.cpus[list[k]]
    ensures Line(t, pid, wish, list, i) == Line(s, pid, wish, list, i)
    decreases |list| - i
  {
    if i < |list| {
      LineSame(s, t, pid, wish, list, i + 1);
    }
  }

  lemma {:induction false} CallsSame(s: State, t: State, pid: Pid, q: seq<nat>)
    requires InTable(s, q) && |t.cpus| == |s.cpus| && forall k :: 0 <= k < |q| ==> t.cpus[q[k]].guest == s.cpus[q[k]].guest
    ensures Calls(t, pid, q) == Calls(s, pid, q)
  {
    if q != [] {
      CallsSame(s, t, pid, q[1..]);
    }
  }

  lemma {:induction false} CallsConcat(s: State, pid: Pid, a: seq<nat>, b: seq<nat>)
    requires InTable(s, a) && InTable(s, b)
    ensures InTable(s, a + b) && Calls(s, pid, a + b) == Calls(s, pid, a) + Calls(s, pid, b)
  {
    if a == [] {
      assert a + b == b;
    } else {
      assert (a + b)[1..] == a[1..] + b;
      CallsConcat(s, pid, a[1..], b);
    }
  }

  /** Taking the CPUs of a and then, from those left, those of b. */
  lemma TookBoth(s: State, t: State, u: State, pid: Pid, a: seq<nat>, b: seq<nat>)
    requires InTable(s, a) && InTable(s, b) && TookExactly(s, t, pid, a) && TookExactly(t, u, pid, b)
    requires forall k :: 0 <= k < |b| ==> b[k] !in a
    ensures InTable(s, a + b) && TookExactly(s, u, pid, a + b)
  {
    CallsConcat(s, pid, a, b);
    CallsSame(s, t, pid, b);
    hide Calls, Taken;
  }

  // ---------------------------------------------------------------- one CPU

  lemma AttemptTakes(s: State, pid: Pid, wish: Wish, c: nat)
    requires Has(s, c) && !s.smt && !wish.Reclaiming? && (wish.Acquiring? ==> s.cpus[c].owner == pid)
    ensures var (t, code) := Attempt(s, pid, wish, c); var q := if Obtainable(s.cpus[c], pid, wish) then [c] else [];
      && TookExactly(s, t, pid, q)
      && (Got(code) <==> q != []) && (q != [] ==> code == if s.cpus[c].guest == NOBODY then Success else Noted)
  {
    hide UpdatedOccupied;
    if Obtainable(s.cpus[c], pid, wish) {
      assert Calls(s, pid, [c][1..]) == [];
    }
  }

  // ---------------------------------------------------------------- a list

  lemma FirstListed(s: State, pid: Pid, wish: Wish, list: seq<nat>, i: nat, n: int, c: nat)
    requires InTable(s, list)
    ensures InTable(s, Line(s, pid, wish, list, i)) && InTable(s, First(Line(s, pid, wish, list, i), n))
    ensures c in First(Line(s, pid, wish, list, i), n) ==> exists k :: i <= k < |list| && list[k] == c
  {
    LineListed(s, pid, wish, list, i, c);
  }

  lemma FirstSplit(x: seq<nat>, rest: seq<nat>, n: int)
    requires |x| <= 1 && n > 0
    ensures First(x + rest, n) == x + First(rest, n - |x|)
  {
  }

  lemma AnswersBoth(s: State, t: State, a: seq<nat>, b: seq<nat>, was: Code, mid: Code, code: Code)
    requires InTable(s, a) && InTable(s, b) && |t.cpus| == |s.cpus|
    requires forall c :: c in b ==> t.cpus[c].guest == s.cpus[c].guest
    requires Answers(s, a, was, mid) && Answers(t, b, mid, code)
    ensures InTable(s, a + b) && Answers(s, a + b, was, code)
  {
  }

  lemma AnswersOne(s: State, q: seq<nat>, was: Code, local: Code)
    requires InTable(s, q) && |q| <= 1 && (Got(local) <==> q != [])
    requires q != [] ==> local == if s.cpus[q[0]].guest == NOBODY then Success else Noted
    ensures Answers(s, q, was, Merged(was, local))
  {
  }

  /** CPU i of the list, if pid can have it. */
  function Head(s: State, pid: Pid, wish: Wish, list: seq<nat>, i: nat): seq<nat>
    requires InTable(s, list) && i < |list|
  {
    if Obtainable(s.cpus[list[i]], pid, wish) then [list[i]] else []
  }

  /** A list without repetition; what is acquired from it belongs to pid. */
  ghost predicate Takeable(s: State, pid: Pid, wish: Wish, list: seq<nat>) {
    && |s.core| == |s.cpus| && !s.smt && InTable(s, list) && Distinct(list)
    && !wish.Reclaiming? && (wish.Acquiring? ==> forall k :: 0 <= k < |list| ==> s.cpus[list[k]].owner == pid)
  }

  lemma HeadTaken(s: State, pid: Pid, wish: Wish, list: seq<nat>, i: nat)
    requires Takeable(s, pid, wish, list) && i < |list|
    ensures var (t, local) := Attempt(s, pid, wish, list[i]); var x := Head(s, pid, wish, list, i);
      && InTable(s, x) && |x| <= 1 && TookExactly(s, t, pid, x)
      && (Got(local) <==> x != []) && (x != [] ==> local == if s.cpus[x[0]].guest == NOBODY then Success else Noted)
      && Takeable(t, pid, wish, list)
  {
    AttemptTakes(s, pid, wish, list[i]);
    hide Attempt, Obtainable, Calls, Got;
  }

  /** The state, the count left and the answer after taking the CPUs of q. */
  ghost predicate Outcome(s: State, r: Batch, pid: Pid, q: seq<nat>, count: int, code: Code) {
    && InTable(s, q) && r.count == count - |q| && TookExactly(s, r.state, pid, q) && Answers(s, q, code, r.code)
  }

  /** Taking CPU i leaves the rest of the list as it was. */
  lemma LineNext(s: State, t: State, pid: Pid, wish: Wish, list: seq<nat>, i: nat, count: int)
    requires InTable(s, list) && Distinct(list) && i < |list| && count > 0
    requires TookExactly(s, t, pid, Head(s, pid, wish, list, i))
    ensures var x := Head(s, pid, wish, list, i);
      var rest := First(Line(t, pid, wish, list, i + 1), count - |x|);
      && First(Line(s, pid, wish, list, i), count) == x + rest
      && forall d :: d in rest ==> d < |s.cpus| && d !in x && t.cpus[d] == s.cpus[d]
  {
    var x := Head(s, pid, wish, list, i);
    hide TookExactly;
    forall k | i < k < |list| ensures t.cpus[list[k]] == s.cpus[list[k]] {
      OwnersStay(s, t, pid, x, list[k]);
    }
    LineSame(s, t, pid, wish, list, i + 1);
    FirstSplit(x, Line(s, pid, wish, list, i + 1), count);
    hide First;
    var rest := First(Line(s, pid, wish, list, i + 1), count - |x|);
    forall d | d in rest ensures d < |s.cpus| && d !in x && t.cpus[d] == s.cpus[d] {
      FirstListed(s, pid, wish, list, i + 1, count - |x|, d);
    }
  }

  lemma OutcomeNext(s: State, t: State, r: Batch, pid: Pid, x: seq<nat>, rest: seq<nat>, count: int, code: Code, local: Code)
    requires InTable(s, x) && |x| <= 1 && TookExactly(s, t, pid, x)
    requires (Got(local) <==> x != []) && (x != [] ==> local == if s.cpus[x[0]].guest == NOBODY then Success else Noted)
    requires Outcome(t, r, pid, rest, count - |x|, Merged(code, local))
    requires forall d :: d in rest ==> d < |s.cpus| && d !in x && t.cpus[d] == s.cpus[d]
    ensures Outcome(s, r, pid, x + rest, count, code)
  {
    AnswersOne(s, x, code, local);
    hide Answers, Got, Merged, TookExactly;
    assert InTable(s, rest);
    TookBoth(s, t, r.state, pid, x, rest);
    assert |t.cpus| == |s.cpus| by { OwnersLength(s, t, pid, x); }
    AnswersBoth(s, t, x, rest, code, Merged(code, local), r.code);
  }

  lemma OwnersLength(s: State, t: State, pid: Pid, q: seq<nat>)
    requires InTable(s, q) && TookExactly(s, t, pid, q)
    ensures |t.cpus| == |s.cpus|
  {
  }

  /** Without SMT, the CPUs taken from a list are the first ones that pid can have, as many as it wants. */
  lemma {:induction false} TakesFirst(s: State, pid: Pid, wish: Wish, list: seq<nat>, i: nat, count: int, prev: int, code: Code)
    requires Takeable(s, pid, wish, list) && i <= |list|
    ensures Outcome(s, TakeArray(s, pid, wish, list, i, count, prev, code), pid,
                    First(Line(s, pid, wish, list, i), count), count, code)
    decreases |list| - i
  {
    hide Attempt, Head, TookExactly, Line, First, Merged, Outcome, Got, Answers;
    if count > 0 && i < |list| {
      HeadTaken(s, pid, wish, list, i);
      var (t, local) := Attempt(s, pid, wish, list[i]);
      var x := Head(s, pid, wish, list, i);
      LineNext(s, t, pid, wish, list, i, count);
      TakeArrayStep(s, pid, wish, list, i, count, prev, code);
      hide Takeable, TakeArray;
      TakesFirst(t, pid, wish, list, i + 1, count - |x|, prev, Merged(code, local));
      OutcomeNext(s, t, TakeArray(s, pid, wish, list, i, count, prev, code), pid, x,
                  First(Line(t, pid, wish, list, i + 1), count - |x|), count, code, local);
    } else {
      TakesNothing(s, pid, wish, list, i, count, prev, code);
    }
  }

  lemma TakesNothing(s: State, pid: Pid, wish: Wish, list: seq<nat>, i: nat, count: int, prev: int, code: Code)
    requires |s.core| == |s.cpus| && InTable(s, list) && i <= |list| && (count <= 0 || i == |list|)
    ensures Outcome(s, TakeArray(s, pid, wish, list, i, count, prev, code), pid,
                    First(Line(s, pid, wish, list, i), count), count, code)
  {
    TookNone(s, pid, code);
  }

  lemma TakeArrayStep(s: State, pid: Pid, wish: Wish, list: seq<nat>, i: nat, count: int, prev: int, code: Code)
    requires |s.core| == |s.cpus| && !s.smt && InTable(s, list) && i < |list| && count > 0
    ensures var (t, local) := Attempt(s, pid, wish, list[i]);
      TakeArray(s, pid, wish, list, i, count, prev, code) ==
      TakeArray(t, pid, wish, list, i + 1, if Got(local) then count - 1 else count, prev, Merged(code, local))
  {
    hide Attempt, Got, Merged;
  }

  lemma TookNone(s: State, pid: Pid, code: Code)
    ensures TookExactly(s, s, pid, []) && Answers(s, [], code, code)
  {
  }

  lemma OwnersStay(s: State, t: State, pid: Pid, q: seq<nat>, d: nat)
    requires InTable(s, q) && TookExactly(s, t, pid, q) && d < |s.cpus|
    ensures t.cpus[d].owner == s.cpus[d].owner && (d !in q ==> t.cpus[d] == s.cpus[d])
  {
  }

  // ---------------------------------------------------------------- borrowing a number of CPUs

  /** The CPUs that pid guests in t and did not guest in s. */
  function NewGuests(s: State, t: State, pid: Pid): set<nat>
    requires |t.cpus| == |s.cpus|
  {
    set c | 0 <= c < |s.cpus| && s.cpus[c].guest != pid && t.cpus[c].guest == pid
  }

  function Members(q: seq<nat>): set<nat> {
    set c | c in q
  }

  lemma {:induction false} DistinctCount(q: seq<nat>)
    requires Distinct(q)
    ensures |Members(q)| == |q|
    decreases |q|
  {
    if q != [] {
      var rest := q[1..];
      DistinctCount(rest);
      assert q == [q[0]] + rest;
      assert Members(q) == {q[0]} + Members(rest);
    }
  }

  /** Every CPU of q was idle. */
  ghost predicate Idle(s: State, q: seq<nat>)
    requires InTable(s, q)
  {
    forall c :: c in q ==> s.cpus[c].guest == NOBODY
  }

  /** Idle CPUs that were taken are new to pid, and so are no others. */
  lemma TakenAreNew(s: State, t: State, pid: Pid, q: seq<nat>)
    requires InTable(s, q) && Idle(s, q) && Distinct(q) && TookExactly(s, t, pid, q)
    ensures |NewGuests(s, t, pid)| == |q| && forall c :: c in NewGuests(s, t, pid) <==> c in q
  {
    DistinctCount(q);
    assert NewGuests(s, t, pid) == Members(q);
  }

  lemma FirstDistinct(q: seq<nat>, n: int)
    requires Distinct(q)
    ensures Distinct(First(q, n)) && forall c :: c in First(q, n) ==> c in q
  {
  }

  lemma BorrowableIdle(s: State, pid: Pid, list: seq<nat>, n: int)
    requires InTable(s, list) && Distinct(list)
    ensures var line := Line(s, pid, Borrowing, list, 0);
      && InTable(s, line) && Distinct(line) && Idle(s, line)
      && InTable(s, First(line, n)) && Distinct(First(line, n)) && Idle(s, First(line, n))
  {
    var line := Line(s, pid, Borrowing, list, 0);
    LineDistinct(s, pid, Borrowing, list, 0);
    LineListed(s, pid, Borrowing, list, 0, 0);
    FirstDistinct(line, n);
    forall c | c in line ensures s.cpus[c].guest == NOBODY {
      LineListed(s, pid, Borrowing, list, 0, c);
    }
  }

  lemma NoneFreeNoneTaken(s: State, pid: Pid, list: seq<nat>)
    requires IdleAreFree(s) && InTable(s, list) && s.free == {}
    ensures Line(s, pid, Borrowing, list, 0) == []
  {
    var line := Line(s, pid, Borrowing, list, 0);
    forall k | 0 <= k < |list| ensures !Obtainable(s.cpus[list[k]], pid, Borrowing) {
      assert Listed(s.cpus[list[k]], list[k] in s.free);
    }
    hide Obtainable, IdleAreFree;
    if line != [] {
      LineListed(s, pid, Borrowing, list, 0, line[0]);
    }
  }

  /** What is left when fewer CPUs than wanted were taken: none of the list that pid could have. */
  lemma NoneLeft(s: State, t: State, pid: Pid, list: seq<nat>, n: int)
    requires InTable(s, list) && InTable(s, First(Line(s, pid, Borrowing, list, 0), n))
    requires TookExactly(s, t, pid, First(Line(s, pid, Borrowing, list, 0), n)) && |First(Line(s, pid, Borrowing, list, 0), n)| < n
    ensures forall c :: c in list ==> c < |t.cpus| && !Obtainable(t.cpus[c], pid, Borrowing)
  {
    forall c | c in list ensures c < |t.cpus| && !Obtainable(t.cpus[c], pid, Borrowing) {
      LineListed(s, pid, Borrowing, list, 0, c);
      hide Calls, Line;
    }
  }

  /** Borrowing takes the first idle CPUs of the list that pid may have: as many as it wants, or all there are, and the
      answer says whether there were any. */
  lemma BorrowCount(s: State, pid: Pid, wanted: int, list: seq<nat>, freeNodes: State -> seq<nat>)
    requires IdleAreFree(s) && !s.smt && InTable(s, list) && Distinct(list)
    ensures var (t, code) := BorrowNcpus(s, pid, wanted, list, false, freeNodes); var line := Line(s, pid, Borrowing, list, 0);
      && SameTopology(s, t) && InTable(s, First(line, wanted)) && TookExactly(s, t, pid, First(line, wanted))
      && |NewGuests(s, t, pid)| == Min(Max(wanted, 0), |line|)
      && (|NewGuests(s, t, pid)| < wanted ==> forall c :: c in list ==> !Obtainable(t.cpus[c], pid, Borrowing))
      && code == if NewGuests(s, t, pid) == {} then NoUpdt else Success
  {
    var n := if s.free == {} then 0 else wanted;
    var line := Line(s, pid, Borrowing, list, 0);
    BorrowableIdle(s, pid, list, wanted);
    TakesFirst(s, pid, Borrowing, list, 0, n, -1, NoUpdt);
    if s.free == {} {
      NoneFreeNoneTaken(s, pid, list);
    }
    hide IdleAreFree, Line, TakeArray, Obtainable, Calls, Taken, Distinct;
    var q := First(line, wanted);
    assert q == First(line, n);
    var t := BorrowNcpus(s, pid, wanted, list, false, freeNodes).0;
    TakenAreNew(s, t, pid, q);
    if |q| < wanted {
      NoneLeft(s, t, pid, list, wanted);
    }
    assert q != [] ==> q[0] in NewGuests(s, t, pid);
  }

  // ---------------------------------------------------------------- acquiring a number of CPUs

  /** The CPUs of the list that an acquire can have: own idle ones, own ones in use, and idle ones of others. */
  function AcquireLine(s: State, pid: Pid, list: seq<nat>): (r: seq<nat>)
    requires InTable(s, list)
  {
    Select(s, pid, list, OwnedIdle) + Select(s, pid, list, OwnedInUse)
    + Line(s, pid, Borrowing, Select(s, pid, list, NotOwned), 0)
  }

  /** A CPU that an acquire may obtain. */
  predicate Acquirable(cpu: Cpu, pid: Pid) {
    cpu.state != CpuState.Disabled && if cpu.owner == pid then cpu.guest != pid else cpu.guest == NOBODY && cpu.state == Lent
  }

  lemma {:induction false} SelectIs(s: State, pid: Pid, list: seq<nat>, kind: Kind, n: nat, c: nat)
    requires InTable(s, list) && n <= |list|
    ensures c in SelectFirst(s, pid, list, kind, n) <==> exists k :: 0 <= k < n && list[k] == c && OfKind(s.cpus[list[k]], pid, kind)
  {
    if n > 0 {
      SelectIs(s, pid, list, kind, n - 1, c);
    }
  }

  lemma {:induction false} SelectDistinct(s: State, pid: Pid, list: seq<nat>, kind: Kind, n: nat)
    requires InTable(s, list) && Distinct(list) && n <= |list|
    ensures Distinct(SelectFirst(s, pid, list, kind, n))
  {
    if n > 0 {
      SelectDistinct(s, pid, list, kind, n - 1);
      SelectIs(s, pid, list, kind, n - 1, list[n - 1]);
    }
  }

  lemma Selected(s: State, pid: Pid, list: seq<nat>, kind: Kind)
    requires InTable(s, list)
    ensures forall c: nat :: c in Select(s, pid, list, kind) <==> c in list && OfKind(s.cpus[c], pid, kind)
    ensures Distinct(list) ==> Distinct(Select(s, pid, list, kind))
  {
    forall c: nat ensures c in Select(s, pid, list, kind) <==> c in list && OfKind(s.cpus[c], pid, kind) {
      SelectIs(s, pid, list, kind, |list|, c);
    }
    if Distinct(list) {
      SelectDistinct(s, pid, list, kind, |list|);
    }
  }

  /** The line has every CPU of the list that can be acquired, once, and no other. */
  lemma AcquireLineHas(s: State, pid: Pid, list: seq<nat>)
    requires InTable(s, list) && Distinct(list)
    ensures InTable(s, AcquireLine(s, pid, list)) && Distinct(AcquireLine(s, pid, list))
    ensures forall c: nat :: c in AcquireLine(s, pid, list) <==> c in list && Acquirable(s.cpus[c], pid)
  {
    Selected(s, pid, list, OwnedIdle);
    Selected(s, pid, list, OwnedInUse);
    Selected(s, pid, list, NotOwned);
    var others := Select(s, pid, list, NotOwned);
    hide Select;
    LineDistinct(s, pid, Borrowing, others, 0);
    LineListed(s, pid, Borrowing, others, 0, 0);
    forall c: nat ensures c in Line(s, pid, Borrowing, others, 0) <==> c in others && Obtainable(s.cpus[c], pid, Borrowing) {
      LineListed(s, pid, Borrowing, others, 0, c);
    }
    var own, used, last := Select(s, pid, list, OwnedIdle), Select(s, pid, list, OwnedInUse), Line(s, pid, Borrowing, others, 0);
    hide Line;
    DistinctConcat(own, used);
    DistinctConcat(own + used, last);
  }

  lemma DistinctConcat(a: seq<nat>, b: seq<nat>)
    requires Distinct(a) && Distinct(b) && forall c :: c in a ==> c !in b
    ensures Distinct(a + b)
  {
    forall i, j | 0 <= i < j < |a + b| ensures (a + b)[i] != (a + b)[j] {
      assert i < |a| <= j ==> a[i] in a && b[j - |a|] in b;
    }
  }

  lemma {:induction false} LineAll(s: State, pid: Pid, wish: Wish, list: seq<nat>, i: nat)
    requires InTable(s, list) && i <= |list| && forall c :: c in list ==> Obtainable(s.cpus[c], pid, wish)
    ensures Line(s, pid, wish, list, i) == list[i..]
    decreases |list| - i
  {
    if i < |list| {
      LineAll(s, pid, wish, list, i + 1);
    }
  }

  lemma FirstConcat(a: seq<nat>, b: seq<nat>, n: int)
    ensures First(a + b, n) == First(a, n) + First(b, n - |First(a, n)|)
  {
  }

  lemma AnswersMerged(s: State, t: State, a: seq<nat>, b: seq<nat>, x: Code, y: Code)
    requires InTable(s, a) && InTable(s, b) && |t.cpus| == |s.cpus|
    requires forall c :: c in b ==> t.cpus[c].guest == s.cpus[c].guest
    requires Answers(s, a, NoUpdt, x) && Answers(t, b, NoUpdt, y)
    ensures InTable(s, a + b) && Answers(s, a + b, NoUpdt, Merged(x, y))
  {
    assert a + b == [] <==> a == [] && b == [];
  }

  /** One more list, apart from what was taken so far, with the count that is left. */
  lemma ThenTake(s: State, r: Batch, pid: Pid, q: seq<nat>, wanted: int, code: Code, wish: Wish, list: seq<nat>)
    requires |s.core| == |s.cpus| && !s.smt && InTable(s, list) && Distinct(list) && SameTopology(s, r.state)
    requires Outcome(s, r.(code := code), pid, q, wanted, NoUpdt) && forall c :: c in list ==> c !in q
    requires !wish.Reclaiming? && (wish.Acquiring? ==> forall k :: 0 <= k < |list| ==> s.cpus[list[k]].owner == pid)
    ensures InTable(r.state, list)
    ensures var n := TakeArray(r.state, pid, wish, list, 0, r.count, -1, NoUpdt);
      var more := First(Line(s, pid, wish, list, 0), r.count);
      Outcome(s, n.(code := Merged(code, n.code)), pid, q + more, wanted, NoUpdt)
  {
    hide TookExactly, Answers, Line, TakeArray, First, Distinct;
    var t := r.state;
    forall c | c in list ensures c < |s.cpus| == |t.cpus| && t.cpus[c] == s.cpus[c] {
      OwnersStay(s, t, pid, q, c);
    }
    LineSame(s, t, pid, wish, list, 0);
    TakesFirst(t, pid, wish, list, 0, r.count, -1, NoUpdt);
    var more := First(Line(s, pid, wish, list, 0), r.count);
    forall c | c in more ensures c < |s.cpus| && c in list {
      FirstListed(s, pid, wish, list, 0, r.count, c);
    }
    var n := TakeArray(t, pid, wish, list, 0, r.count, -1, NoUpdt);
    assert forall k :: 0 <= k < |more| ==> more[k] in more;
    TookBoth(s, t, n.state, pid, q, more);
    AnswersMerged(s, t, q, more, code, n.code);
  }

  /** What an acquire takes before it asks for more. */
  function AcquireNow(s: State, pid: Pid, wanted: int, list: seq<nat>): (r: Batch)
    requires |s.core| == |s.cpus| && InTable(s, list)
    ensures SameTopology(s, r.state)
  {
    var a := TakeArray(s, pid, Acquiring, Select(s, pid, list, OwnedIdle), 0, wanted, -1, NoUpdt);
    var b := TakeArray(a.state, pid, Acquiring, Select(s, pid, list, OwnedInUse), 0, a.count, -1, NoUpdt);
    var d := TakeArray(b.state, pid, Borrowing, Select(s, pid, list, NotOwned), 0, b.count, -1, NoUpdt);
    d.(code := Merged(Merged(a.code, b.code), d.code))
  }

  /** Without SMT, acquiring takes the first CPUs of its line: own idle ones, then own ones in use, then idle ones of
      others; as many as it wants, or all there are. */
  lemma AcquireTakes(s: State, pid: Pid, wanted: int, list: seq<nat>)
    requires |s.core| == |s.cpus| && !s.smt && InTable(s, list) && Distinct(list)
    ensures Outcome(s, AcquireNow(s, pid, wanted, list), pid, First(AcquireLine(s, pid, list), wanted), wanted, NoUpdt)
  {
    var own, used, others := Select(s, pid, list, OwnedIdle), Select(s, pid, list, OwnedInUse), Select(s, pid, list, NotOwned);
    ListsApart(s, pid, list);
    hide TookExactly, Answers, Line, Select, TakeArray, First, Distinct, Merged, Obtainable, Outcome;
    var a := TakeArray(s, pid, Acquiring, own, 0, wanted, -1, NoUpdt);
    OwnCpusTaken(s, pid, wanted, own, used);
    var b := TakeArray(a.state, pid, Acquiring, used, 0, a.count, -1, NoUpdt);
    FirstOf(own + used, wanted);
    ThenTake(s, b, pid, First(own + used, wanted), wanted, Merged(a.code, b.code), Borrowing, others);
    FirstLength(s, b.(code := Merged(a.code, b.code)), pid, First(own + used, wanted), wanted);
    FirstConcat(own + used, Line(s, pid, Borrowing, others, 0), wanted);
  }

  lemma FirstLength(s: State, r: Batch, pid: Pid, q: seq<nat>, wanted: int)
    requires Outcome(s, r, pid, q, wanted, NoUpdt)
    ensures r.count == wanted - |q|
  {
  }

  /** The three lists of an acquire have no CPU in common. */
  lemma ListsApart(s: State, pid: Pid, list: seq<nat>)
    requires InTable(s, list) && Distinct(list)
    ensures var own, used, others := Select(s, pid, list, OwnedIdle), Select(s, pid, list, OwnedInUse), Select(s, pid, list, NotOwned);
      && Distinct(own) && Distinct(used) && Distinct(others)
      && (forall c :: c in own || c in used ==> c < |s.cpus| && s.cpus[c].owner == pid && Obtainable(s.cpus[c], pid, Acquiring))
      && (forall c :: c in used ==> c !in own) && (forall c :: c in others ==> c !in own + used)
  {
    Selected(s, pid, list, OwnedIdle);
    Selected(s, pid, list, OwnedInUse);
    Selected(s, pid, list, NotOwned);
    hide Select, Distinct;
  }

  lemma OwnCpusTaken(s: State, pid: Pid, wanted: int, own: seq<nat>, used: seq<nat>)
    requires |s.core| == |s.cpus| && !s.smt && InTable(s, own) && InTable(s, used) && Distinct(own) && Distinct(used)
    requires forall c :: c in own || c in used ==> s.cpus[c].owner == pid && Obtainable(s.cpus[c], pid, Acquiring)
    requires forall c :: c in used ==> c !in own
    ensures var a := TakeArray(s, pid, Acquiring, own, 0, wanted, -1, NoUpdt);
      && InTable(a.state, used)
      && var b := TakeArray(a.state, pid, Acquiring, used, 0, a.count, -1, NoUpdt);
      Outcome(s, b.(code := Merged(a.code, b.code)), pid, First(own + used, wanted), wanted, NoUpdt)
  {
    LineAll(s, pid, Acquiring, own, 0);
    LineAll(s, pid, Acquiring, used, 0);
    hide TookExactly, Answers, Line, TakeArray, First, Distinct, Merged, Obtainable, Outcome;
    TakesFirst(s, pid, Acquiring, own, 0, wanted, -1, NoUpdt);
    var a := TakeArray(s, pid, Acquiring, own, 0, wanted, -1, NoUpdt);
    FirstOf(own, wanted);
    FirstLength(s, a, pid, First(own, wanted), wanted);
    ThenTake(s, a, pid, First(own, wanted), wanted, a.code, Acquiring, used);
    FirstConcat(own, used, wanted);
  }

  lemma FirstOf(q: seq<nat>, n: int)
    ensures forall c :: c in First(q, n) ==> c in q
  {
  }

  /** A petition of the same process for the same CPUs. */
  predicate SameAsk(a: Petition, p: Petition) {
    a.pid == p.pid && a.allowed == p.allowed
  }

  /** A petition is accepted exactly when there is one to add it to, or room; the others keep their place. */
  lemma {:induction false} PostedPlace(q: seq<Petition>, p: Petition, i: nat)
    requires i <= |q| && forall k :: 0 <= k < i ==> !SameAsk(q[k], p)
    ensures var (r, code) := Posted(q, p, i);
      && (code == Noted <==> (exists k :: 0 <= k < |q| && SameAsk(q[k], p)) || |q| < PETITIONS_CAPACITY)
      && (forall k :: 0 <= k < |q| && !SameAsk(q[k], p) ==> k < |r| && r[k] == q[k])
      && ((exists k :: 0 <= k < |q| && SameAsk(q[k], p)) ==> |r| == |q|)
      && (code == Noted && |r| > |q| ==> r == q + [p])
    decreases |q| - i
  {
    if i < |q| && !SameAsk(q[i], p) {
      PostedPlace(q, p, i + 1);
    }
  }

  /** What an acquire takes, and, in asynchronous mode, what it asks for: with a number, together exactly that many
      CPUs if the petition is accepted. */
  lemma AcquireCount(s: State, pid: Pid, counted: bool, wanted: int, list: seq<nat>)
    requires |s.core| == |s.cpus| && !s.smt && InTable(s, list) && Distinct(list) && (s.queues ==> counted)
    ensures var (t, code) := AcquireNcpus(s, pid, counted, wanted, list);
      var q, allowed := First(AcquireLine(s, pid, list), wanted), Members(list);
      && InTable(s, q) && Distinct(q) && TookExactly(s, t.(petitions := s.petitions), pid, q)
      && (|q| < wanted ==> forall c: nat :: c in list && Acquirable(s.cpus[c], pid) ==> c in q)
      && if !s.queues || |q| >= wanted then t.petitions == s.petitions && Answers(s, q, NoUpdt, code)
         else && (t.petitions, code) == Posted(s.petitions, Petition(pid, wanted - |q|, allowed), 0)
              && (code == Noted || code == ErrReqst)
              && (code == Noted ==> |q| + Owed(t.petitions, |t.petitions|, pid, allowed)
                                      - Owed(s.petitions, |s.petitions|, pid, allowed) == wanted)
  {
    hide TakeArray, Select, AcquireLine, Calls, Taken, Distinct, Posted, Owed, Acquirable, Answers, AcquireNow, AcquireNcpus, First, TookExactly;
    AcquireTakes(s, pid, wanted, list);
    AcquireLineHas(s, pid, list);
    AcquireThenPost(s, pid, counted, wanted, list);
    var line := AcquireLine(s, pid, list);
    FirstDistinct(line, wanted);
    FirstAll(line, wanted);
    var q, d := First(line, wanted), AcquireNow(s, pid, wanted, list);
    FirstLength(s, d, pid, q, wanted);
    QueueOfTook(s, d.state, pid, q);
    if |q| < wanted {
      PostedIsOwed(s.petitions, Petition(pid, wanted - |q|, Members(list)), 0);
    }
  }

  lemma FirstAll(q: seq<nat>, n: int)
    ensures |First(q, n)| < n ==> First(q, n) == q
  {
  }

  /** With a number of CPUs, an acquire is what it takes, and a petition for the rest in asynchronous mode. */
  lemma AcquireThenPost(s: State, pid: Pid, counted: bool, wanted: int, list: seq<nat>)
    requires |s.core| == |s.cpus| && InTable(s, list) && (s.queues ==> counted)
    ensures var d := AcquireNow(s, pid, wanted, list);
      var (q, posted) := Posted(d.state.petitions, Petition(pid, Max(d.count, 0), Members(list)), 0);
      AcquireNcpus(s, pid, counted, wanted, list) ==
        if !s.queues || d.count <= 0 then (d.state, d.code) else (d.state.(petitions := q), posted)
  {
    assert Members(list) == set k | 0 <= k < |list| :: list[k];
    hide TakeArray, Select, AskEach, Posted, Merged;
  }

  lemma QueueOfTook(s: State, t: State, pid: Pid, q: seq<nat>)
    requires InTable(s, q) && TookExactly(s, t, pid, q)
    ensures t.petitions == s.petitions
    ensures forall p :: TookExactly(s, t.(petitions := p).(petitions := s.petitions), pid, q)
  {
  }

  // ---------------------------------------------------------------- asking for every CPU of a list

  /** A CPU on which an acquire without a number leaves a request. */
  predicate Asks(cpu: Cpu, pid: Pid) {
    && (cpu.state == CpuState.Disabled || (cpu.owner != pid && cpu.guest != pid))
    && pid !in cpu.requests && |cpu.requests| < REQUESTS_CAPACITY
  }

  /** A CPU after its turn. */
  function Asked(cpu: Cpu, pid: Pid, listed: bool): Cpu {
    if listed && Asks(cpu, pid) then cpu.(requests := cpu.requests + [pid]) else cpu
  }

  /** Without a number, an asynchronous acquire queues pid last on every CPU of the list that it does not have, where
      it does not wait already and there is room. */
  lemma {:induction false} AskEachEffect(s: State, pid: Pid, list: seq<nat>, i: nat, code: Code, d: nat)
    requires |s.core| == |s.cpus| && InTable(s, list) && i <= |list| && d < |s.cpus|
    ensures var (t, last) := AskEach(s, pid, list, i, code);
      && t.cpus[d] == Asked(s.cpus[d], pid, d in list[i..])
      && (code == Noted ==> last == Noted)
    decreases |list| - i
  {
    if i < |list| {
      var c := list[i];
      assert list[i..] == [c] + list[i + 1..];
      var t := if Asks(s.cpus[c], pid) then Put(s, c, s.cpus[c].(requests := s.cpus[c].requests + [pid])) else s;
      assert AskEach(s, pid, list, i, code) == AskEach(t, pid, list, i + 1, if Asks(s.cpus[c], pid) then Noted else code);
      AskEachEffect(t, pid, list, i + 1, if Asks(s.cpus[c], pid) then Noted else code, d);
      hide AskEach;
    }
  }

  /** The answer is Noted if any request was left, and otherwise as before. */
  lemma {:induction false} AskEachAnswers(s: State, pid: Pid, list: seq<nat>, i: nat, code: Code)
    requires |s.core| == |s.cpus| && InTable(s, list) && i <= |list|
    ensures AskEach(s, pid, list, i, code).1 ==
      if exists k :: i <= k < |list| && Asks(s.cpus[list[k]], pid) then Noted else code
    decreases |list| - i
  {
    if i < |list| {
      AskEachAnswers(s, pid, list, i + 1, code);
      if Asks(s.cpus[list[i]], pid) {
        var t := Put(s, list[i], s.cpus[list[i]].(requests := s.cpus[list[i]].requests + [pid]));
        AskEachEffect(t, pid, list, i + 1, Noted, 0);
      }
      hide Asks;
    }
  }

  /** So asking for a list without a number: what can be had is taken, and what cannot is asked for. */
  lemma AcquireAsksEach(s: State, pid: Pid, wanted: int, list: seq<nat>)
    requires |s.core| == |s.cpus| && !s.smt && InTable(s, list) && Distinct(list) && s.queues
    ensures var (t, code) := AcquireNcpus(s, pid, false, wanted, list);
      var q := First(AcquireLine(s, pid, list), wanted);
      && InTable(s, q) && t.petitions == s.petitions && t.tasks == s.tasks + Calls(s, pid, q)
      && forall d :: 0 <= d < |s.cpus| ==>
           var cpu := if d in q then Taken(s.cpus[d], pid) else s.cpus[d];
           t.cpus[d] == Asked(cpu, pid, d in list)
  {
    AcquireTakes(s, pid, wanted, list);
    var d := AcquireNow(s, pid, wanted, list);
    forall c | 0 <= c < |s.cpus|
      ensures AskEach(d.state, pid, list, 0, d.code).0.cpus[c] == Asked(d.state.cpus[c], pid, c in list)
    {
      AskEachEffect(d.state, pid, list, 0, d.code, c);
      assert list[0..] == list;
    }
    AskEachSame(d.state, pid, list, 0, d.code);
    hide TakeArray, Select, AcquireLine, Calls, Taken, AskEach, Asked, First, Answers, Distinct;
  }

  lemma {:induction false} AskEachSame(s: State, pid: Pid, list: seq<nat>, i: nat, code: Code)
    requires |s.core| == |s.cpus| && InTable(s, list)
    ensures AskEach(s, pid, list, i, code).0 == s.(cpus := AskEach(s, pid, list, i, code).0.cpus)
    decreases |list| - i
  {
    if i < |list| {
      var cpu := s.cpus[list[i]];
      AskEachSame(s, pid, list, i + 1, code);
      if |cpu.requests| < REQUESTS_CAPACITY {
        AskEachSame(Put(s, list[i], cpu.(requests := cpu.requests + [pid])), pid, list, i + 1, Noted);
      }
    }
  }

  // ---------------------------------------------------------------- any topology

  function Starts(tasks: seq<Task>): nat {
    if tasks == [] then 0 else Starts(tasks[..|tasks| - 1]) + if tasks[|tasks| - 1].action == Enable then 1 else 0
  }

  lemma StartsPush(tasks: seq<Task>, task: Task)
    ensures Starts(tasks + [task]) == Starts(tasks) + if task.action == Enable then 1 else 0
  {
    assert (tasks + [task])[..|tasks|] == tasks;
  }

  /** Nothing is counted but CPUs: a request does not stand for one. */
  predicate CountsCpus(s: State, wish: Wish) {
    wish.Acquiring? ==> !s.queues
  }

  /** One more CPU is started if one was taken. */
  ghost predicate Started(s: State, t: State, code: Code) {
    Starts(t.tasks) == Starts(s.tasks) + if Got(code) then 1 else 0
  }

  lemma StartsPushes(s: State, pid: Pid, c: nat, guest: nat)
    ensures Starts(s.tasks + [Task(Enable, pid, c)]) == Starts(s.tasks) + 1
    ensures Starts(s.tasks + [Task(Disable, guest, c)] + [Task(Enable, pid, c)]) == Starts(s.tasks) + 1
  {
    StartsPush(s.tasks, Task(Enable, pid, c));
    StartsPush(s.tasks, Task(Disable, guest, c));
    StartsPush(s.tasks + [Task(Disable, guest, c)], Task(Enable, pid, c));
  }

  lemma AcquireStarts(s: State, pid: Pid, c: nat)
    requires Has(s, c) && !s.queues
    ensures var (t, code) := AcquireCpu(s, pid, c); Started(s, t, code)
  {
    HostedTasks(s, pid, c);
    hide Starts, Hosted, UpdatedOccupied, CoreIsEligible;
    StartsPushes(s, pid, c, s.cpus[c].guest);
  }

  lemma BorrowStarts(s: State, pid: Pid, c: nat)
    requires Has(s, c)
    ensures var (t, code) := BorrowCpu(s, pid, c); Started(s, t, code)
  {
    HostedTasks(s, pid, c);
    hide Starts, Hosted, CoreIsEligible;
    StartsPushes(s, pid, c, NOBODY);
  }

  lemma HostedTasks(s: State, pid: Pid, c: nat)
    requires Has(s, c)
    ensures Hosted(s, pid, c).tasks == s.tasks + [Task(Enable, pid, c)]
  {
    hide UpdatedOccupied;
  }

  lemma ReclaimStarts(s: State, pid: Pid, c: nat)
    requires Has(s, c)
    ensures var (t, code) := ReclaimCpu(s, pid, c); Started(s, t, code)
  {
    StartsPushes(s, pid, c, s.cpus[c].guest);
    hide Starts;
  }

  lemma AttemptStarts(s: State, pid: Pid, wish: Wish, c: nat)
    requires Has(s, c) && CountsCpus(s, wish)
    ensures var (t, code) := Attempt(s, pid, wish, c); Started(s, t, code)
  {
    hide Started, AcquireCpu, BorrowCpu, ReclaimCpu;
    match wish
    case Acquiring => AcquireStarts(s, pid, c);
    case Borrowing => BorrowStarts(s, pid, c);
    case Reclaiming => ReclaimStarts(s, pid, c);
  }

  /** The CPUs of a core from c on. */
  function CoreSize(cores: seq<nat>, core: nat, c: nat): nat
    decreases |cores| - c
  {
    if c >= |cores| then 0 else (if cores[c] == core then 1 else 0) + CoreSize(cores, core, c + 1)
  }

  lemma {:induction false} TakeCoreStarts(s: State, pid: Pid, wish: Wish, core: nat, c: nat, code: Code, count: int)
    requires |s.core| == |s.cpus| && CountsCpus(s, wish)
    ensures var r := TakeCore(s, pid, wish, core, c, code, count); r.count - count == Starts(r.state.tasks) - Starts(s.tasks)
    decreases |s.cpus| - c
  {
    hide Starts;
    if c < |s.cpus| && s.core[c] == core {
      AttemptStarts(s, pid, wish, c);
      var (t, local) := Attempt(s, pid, wish, c);
      hide Attempt, Got, Merged;
      if Got(local) {
        TakeCoreStarts(t, pid, wish, core, c + 1, Merged(code, local), count + 1);
      } else {
        TakeCoreStarts(t, pid, wish, core, c + 1, code, count);
      }
    } else if c < |s.cpus| {
      TakeCoreStarts(s, pid, wish, core, c + 1, code, count);
    }
  }

  /** The answer for a core says whether a CPU of it was taken. */
  lemma {:induction false} TakeCoreAnswers(s: State, pid: Pid, wish: Wish, core: nat, c: nat, code: Code, count: int)
    requires |s.core| == |s.cpus|
    ensures var r := TakeCore(s, pid, wish, core, c, code, count); r.count >= count && (Got(r.code) <==> Got(code) || r.count > count)
    decreases |s.cpus| - c
  {
    if c < |s.cpus| && s.core[c] == core {
      var (t, local) := Attempt(s, pid, wish, c);
      assert Got(local) ==> Got(Merged(code, local));
      hide Attempt, Got, Merged;
      if Got(local) {
        TakeCoreAnswers(t, pid, wish, core, c + 1, Merged(code, local), count + 1);
      } else {
        TakeCoreAnswers(t, pid, wish, core, c + 1, code, count);
      }
    } else if c < |s.cpus| {
      TakeCoreAnswers(s, pid, wish, core, c + 1, code, count);
    }
  }

  lemma {:induction false} TakeCoreSize(s: State, pid: Pid, wish: Wish, core: nat, c: nat, code: Code, count: int)
    requires |s.core| == |s.cpus|
    ensures 0 <= TakeCore(s, pid, wish, core, c, code, count).count - count <= CoreSize(s.core, core, c)
    decreases |s.cpus| - c
  {
    if c < |s.cpus| && s.core[c] == core {
      var (t, local) := Attempt(s, pid, wish, c);
      hide Attempt, Got, Merged;
      TakeCoreSize(t, pid, wish, core, c + 1, Merged(code, local), count + 1);
      TakeCoreSize(t, pid, wish, core, c + 1, code, count);
    } else if c < |s.cpus| {
      TakeCoreSize(s, pid, wish, core, c + 1, code, count);
    }
  }

  /** No core has more than width CPUs. */
  ghost predicate CoresWithin(s: State, width: nat) {
    width > 0 && forall core :: CoreSize(s.core, core, 0) <= width
  }

  /** In any topology, the count left is what was wanted less one for every CPU started; as whole cores are taken, it may
      end below zero, by less than a core. */
  lemma {:induction false} TakeArrayStarts(s: State, pid: Pid, wish: Wish, list: seq<nat>, i: nat, count: int, prev: int,
      code: Code, width: nat)
    requires |s.core| == |s.cpus| && InTable(s, list) && CountsCpus(s, wish) && CoresWithin(s, width)
    ensures var r := TakeArray(s, pid, wish, list, i, count, prev, code);
      && count - r.count == Starts(r.state.tasks) - Starts(s.tasks)
      && r.count <= count && (count > 0 ==> r.count > -(width as int))
    decreases |list| - i
  {
    if count > 0 && i < |list| {
      var c := list[i];
      AttemptStarts(s, pid, wish, c);
      TakeCoreStarts(s, pid, wish, s.core[c], 0, NoUpdt, 0);
      TakeCoreAnswers(s, pid, wish, s.core[c], 0, NoUpdt, 0);
      TakeCoreSize(s, pid, wish, s.core[c], 0, NoUpdt, 0);
      hide Attempt, TakeCore, Starts, CoreSize;
      var (t, local) := Attempt(s, pid, wish, c);
      var b := TakeCore(s, pid, wish, s.core[c], 0, NoUpdt, 0);
      if !s.smt {
        TakeArrayStarts(t, pid, wish, list, i + 1, if Got(local) then count - 1 else count, prev, Merged(code, local), width);
      } else if prev == s.core[c] {
        TakeArrayStarts(s, pid, wish, list, i + 1, count, prev, code, width);
      } else {
        TakeArrayStarts(b.state, pid, wish, list, i + 1, if Got(b.code) then count - b.count else count, s.core[c],
          Merged(code, b.code), width);
      }
    }
  }

  // ---------------------------------------------------------------- reclaiming a number of CPUs

  /** A core belongs to pid as a whole or not at all. */
  ghost predicate WholeCores(s: State, pid: Pid) {
    forall c, d :: 0 <= c < |s.cpus| == |s.core| && 0 <= d < |s.cpus| && s.core[c] == s.core[d] ==>
      (s.cpus[c].owner == pid <==> s.cpus[d].owner == pid)
  }

  lemma ReclaimAt(s: State, pid: Pid, c: nat, d: nat)
    requires Has(s, c) && d < |s.cpus|
    ensures var (t, code) := ReclaimCpu(s, pid, c);
      && t.cpus[d].owner == s.cpus[d].owner && (s.cpus[d].state == Busy ==> t.cpus[d].state == Busy)
      && (d != c ==> t.cpus[d] == s.cpus[d]) && (s.cpus[c].owner == pid ==> t.cpus[c].state == Busy && (Got(code) || t.cpus[c].guest == pid))
  {
  }

  lemma {:induction false} ReclaimCoreBusy(s: State, pid: Pid, core: nat, c: nat, code: Code, count: int, d: nat)
    requires |s.core| == |s.cpus| && WholeCores(s, pid) && d < |s.cpus|
    ensures var t := TakeCore(s, pid, Reclaiming, core, c, code, count).state;
      && WholeCores(t, pid) && t.cpus[d].owner == s.cpus[d].owner && (s.cpus[d].state == Busy ==> t.cpus[d].state == Busy)
      && (c <= d && s.core[d] == core && s.cpus[d].owner == pid ==> t.cpus[d].state == Busy)
    decreases |s.cpus| - c
  {
    if c < |s.cpus| && s.core[c] == core {
      ReclaimAt(s, pid, c, d);
      ReclaimWhole(s, pid, c);
      assert s.core[d] == core ==> (s.cpus[c].owner == pid <==> s.cpus[d].owner == pid);
      var (t, local) := ReclaimCpu(s, pid, c);
      hide ReclaimCpu, Got, Merged, WholeCores;
      if Got(local) {
        ReclaimCoreBusy(t, pid, core, c + 1, Merged(code, local), count + 1, d);
      } else if t.cpus[c].guest == pid {
        ReclaimCoreBusy(t, pid, core, c + 1, code, count, d);
      }
    } else if c < |s.cpus| {
      hide WholeCores;
      ReclaimCoreBusy(s, pid, core, c + 1, code, count, d);
    }
  }

  lemma ReclaimWhole(s: State, pid: Pid, c: nat)
    requires Has(s, c) && WholeCores(s, pid)
    ensures WholeCores(ReclaimCpu(s, pid, c).0, pid)
  {
    var t := ReclaimCpu(s, pid, c).0;
    forall e | 0 <= e < |s.cpus| ensures t.cpus[e].owner == s.cpus[e].owner {
      ReclaimAt(s, pid, c, e);
    }
    hide ReclaimCpu;
  }

  /** Reclaiming count CPUs reclaims whole cores in their order: if an own CPU d is not busy at the end, then no core
      after that of d was touched, and at least count CPUs were started; and never a core more than needed. */
  lemma {:induction false} ReclaimCpusCount(s: State, pid: Pid, count: int, cores: nat, core: nat, code: Code, width: nat, d: nat, e: nat)
    requires |s.core| == |s.cpus| && WholeCores(s, pid) && CoresWithin(s, width) && d < |s.cpus| && e < |s.cpus|
    ensures var t := ReclaimCpus(s, pid, count, cores, core, code).0; var n := Starts(t.tasks) - Starts(s.tasks);
      && n >= 0 && (n == 0 || n < count + width)
      && (s.cpus[d].state == Busy ==> t.cpus[d].state == Busy)
      && (s.cpus[d].owner == pid && core <= s.core[d] < cores && t.cpus[d].state != Busy ==>
            n >= count && (s.core[e] > s.core[d] ==> t.cpus[e] == s.cpus[e]))
    decreases cores - core
  {
    if count > 0 && core < cores {
      TakeCoreStarts(s, pid, Reclaiming, core, 0, NoUpdt, 0);
      TakeCoreAnswers(s, pid, Reclaiming, core, 0, NoUpdt, 0);
      TakeCoreSize(s, pid, Reclaiming, core, 0, NoUpdt, 0);
      ReclaimCoreBusy(s, pid, core, 0, NoUpdt, 0, d);
      TakeCoreAlone(s, pid, Reclaiming, core, 0, NoUpdt, 0, e);
      TakeCoreAlone(s, pid, Reclaiming, core, 0, NoUpdt, 0, d);
      var b := TakeCore(s, pid, Reclaiming, core, 0, NoUpdt, 0);
      hide TakeCore, Starts, CoreSize, WholeCores, Best;
      ReclaimCpusCount(b.state, pid, if Got(b.code) then count - b.count else count, cores, core + 1, Best(code, b.code), width, d, e);
    }
  }
}
