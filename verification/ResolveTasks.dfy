/** Delivery of the tasks that the CPU table produces (resolve_cpuinfo_tasks in src/LB_policies/lewi_mask.c):
    grouped by process, with one call per process to enable and one to disable CPUs. */
module ResolveTasks {
  import opened CpuinfoSpec

  /** A call to a process: enable or disable a set of CPUs. */
  datatype Call = Call(action: Action, pid: nat, cpus: set<nat>)

  /** Tasks of other processes are only delivered in asynchronous mode. */
  predicate Served(pid: nat, self: nat, async: bool) {
    pid == self || async
  }

  // ---------------------------------------------------------------- sorting and grouping

  predicate SortedByPid(tasks: seq<Task>) {
    forall i, j :: 0 <= i < j < |tasks| ==> tasks[i].pid <= tasks[j].pid
  }

  /** The tasks of a process are together. */
  ghost predicate Grouped(tasks: seq<Task>) {
    forall i, j, k :: 0 <= i < j < k < |tasks| && tasks[i].pid == tasks[k].pid ==> tasks[j].pid == tasks[i].pid
  }

  /** What the delivery walks: the tasks in any order by process, or as they are when there are at most two. */
  ghost predicate Arranged(tasks: seq<Task>, items: seq<Task>) {
    if |tasks| > 2 then multiset(items) == multiset(tasks) && SortedByPid(items) else items == tasks
  }

  lemma ArrangedIsGrouped(tasks: seq<Task>, items: seq<Task>)
    requires Arranged(tasks, items)
    ensures Grouped(items) && forall t :: t in items <==> t in tasks
  {
    forall t ensures t in items <==> t in tasks {
      assert t in items <==> t in multiset(items);
      assert t in tasks <==> t in multiset(tasks);
    }
  }

  /** The end of the group that starts at i. */
  function GroupEnd(tasks: seq<Task>, i: nat, j: nat): (e: nat)
    requires i < j <= |tasks|
    ensures j <= e <= |tasks| && (forall k :: j <= k < e ==> tasks[k].pid == tasks[i].pid)
    ensures e < |tasks| ==> tasks[e].pid != tasks[i].pid
    decreases |tasks| - j
  {
    if j < |tasks| && tasks[j].pid == tasks[i].pid then GroupEnd(tasks, i, j + 1) else j
  }

  function CpusOf(tasks: seq<Task>, i: nat, j: nat, action: Action): set<nat>
    requires i <= j <= |tasks|
  {
    set k | i <= k < j && tasks[k].action == action :: tasks[k].cpu
  }

  function CallFor(action: Action, pid: nat, cpus: set<nat>): seq<Call> {
    if cpus == {} then [] else [Call(action, pid, cpus)]
  }

  /** The calls for one group: first what to enable, then what to disable. */
  function GroupCalls(tasks: seq<Task>, i: nat, j: nat, self: nat, async: bool): seq<Call>
    requires i < j <= |tasks|
  {
    var pid := tasks[i].pid;
    if !Served(pid, self, async) then []
    else CallFor(Enable, pid, CpusOf(tasks, i, j, Enable)) + CallFor(Disable, pid, CpusOf(tasks, i, j, Disable))
  }

  function CallsFrom(tasks: seq<Task>, i: nat, self: nat, async: bool): seq<Call>
    decreases |tasks| - i
  {
    if i >= |tasks| then []
    else
      var j := GroupEnd(tasks, i, i + 1);
      GroupCalls(tasks, i, j, self, async) + CallsFrom(tasks, j, self, async)
  }

  // ---------------------------------------------------------------- meaning

  /** Pairs of a process and a CPU enabled in it. */
  type Enabled = set<(nat, nat)>

  function Pairs(pid: nat, cpus: set<nat>): Enabled {
    set c | c in cpus :: (pid, c)
  }

  function Perform(calls: seq<Call>, n: nat, on: Enabled): Enabled
    requires n <= |calls|
  {
    if n == 0 then on
    else
      var before := Perform(calls, n - 1, on);
      var call := calls[n - 1];
      if call.action == Enable then before + Pairs(call.pid, call.cpus) else before - Pairs(call.pid, call.cpus)
  }

  /** The reference: the tasks one by one, in the order of the table. */
  function OneByOne(tasks: seq<Task>, n: nat, self: nat, async: bool, on: Enabled): Enabled
    requires n <= |tasks|
  {
    if n == 0 then on
    else
      var before := OneByOne(tasks, n - 1, self, async, on);
      var t := tasks[n - 1];
      if !Served(t.pid, self, async) then before
      else if t.action == Enable then before + {(t.pid, t.cpu)}
      else before - {(t.pid, t.cpu)}
  }

  datatype Last = Never | LastWas(action: Action)

  /** The last thing asked of a process about a CPU among the first n tasks. */
  function LastOf(tasks: seq<Task>, n: nat, pid: nat, c: nat): Last
    requires n <= |tasks|
  {
    if n == 0 then Never
    else if tasks[n - 1].pid == pid && tasks[n - 1].cpu == c then LastWas(tasks[n - 1].action)
    else LastOf(tasks, n - 1, pid, c)
  }

  lemma {:induction false} OneByOneMeans(tasks: seq<Task>, n: nat, self: nat, async: bool, on: Enabled,
      pid: nat, c: nat)
    requires n <= |tasks|
    ensures (pid, c) in OneByOne(tasks, n, self, async, on) <==>
      if !Served(pid, self, async) || LastOf(tasks, n, pid, c) == Never then (pid, c) in on
      else LastOf(tasks, n, pid, c) == LastWas(Enable)
  {
    if n > 0 {
      OneByOneMeans(tasks, n - 1, self, async, on, pid, c);
    }
  }

  // ---------------------------------------------------------------- grouped delivery

  ghost predicate Asked(tasks: seq<Task>, i: nat, action: Action, pid: nat, c: nat) {
    exists k :: i <= k < |tasks| && tasks[k] == Task(action, pid, c)
  }

  lemma {:induction false} PerformAppend(a: seq<Call>, b: seq<Call>, n: nat, on: Enabled)
    requires n <= |b|
    ensures Perform(a + b, |a| + n, on) == Perform(b, n, Perform(a, |a|, on))
  {
    if n > 0 {
      PerformAppend(a, b, n - 1, on);
      assert (a + b)[|a| + n - 1] == b[n - 1];
    } else {
      PerformPrefix(a, b, |a|, on);
    }
  }

  lemma {:induction false} PerformPrefix(a: seq<Call>, b: seq<Call>, n: nat, on: Enabled)
    requires n <= |a|
    ensures Perform(a + b, n, on) == Perform(a, n, on)
  {
    if n > 0 {
      PerformPrefix(a, b, n - 1, on);
    }
  }

  lemma InCpus(tasks: seq<Task>, i: nat, j: nat, action: Action, c: nat)
    requires i <= j <= |tasks|
    ensures c in CpusOf(tasks, i, j, action) <==> exists k :: i <= k < j && tasks[k].action == action && tasks[k].cpu == c
  {
  }

  lemma PerformOne(action: Action, pid: nat, cpus: set<nat>, on: Enabled, q: nat, c: nat)
    ensures var calls := CallFor(action, pid, cpus);
      (q, c) in Perform(calls, |calls|, on) <==> if q == pid && c in cpus then action == Enable else (q, c) in on
  {
    var calls := CallFor(action, pid, cpus);
    if cpus != {} {
      assert Perform(calls, 0, on) == on;
      assert (q, c) in Pairs(pid, cpus) <==> q == pid && c in cpus;
    }
  }

  /** A group enables what it has to enable and disables what it has to disable; disabling wins. */
  lemma GroupMeans(tasks: seq<Task>, i: nat, j: nat, self: nat, async: bool, on: Enabled, pid: nat, c: nat)
    requires i < j <= |tasks|
    ensures var calls := GroupCalls(tasks, i, j, self, async);
      (pid, c) in Perform(calls, |calls|, on) <==>
        if pid != tasks[i].pid || !Served(pid, self, async) then (pid, c) in on
        else if c in CpusOf(tasks, i, j, Disable) then false
        else c in CpusOf(tasks, i, j, Enable) || (pid, c) in on
  {
    var q := tasks[i].pid;
    hide CpusOf, Perform, CallFor;
    if Served(q, self, async) {
      var a, b := CallFor(Enable, q, CpusOf(tasks, i, j, Enable)), CallFor(Disable, q, CpusOf(tasks, i, j, Disable));
      PerformAppend(a, b, |b|, on);
      PerformOne(Enable, q, CpusOf(tasks, i, j, Enable), on, pid, c);
      PerformOne(Disable, q, CpusOf(tasks, i, j, Disable), Perform(a, |a|, on), pid, c);
    } else {
      PerformNothing(on);
    }
  }

  lemma PerformNothing(on: Enabled)
    ensures Perform([], 0, on) == on
  {
  }

  /** In grouped tasks, a process has all its tasks in one group. */
  lemma AskedInGroup(tasks: seq<Task>, i: nat, j: nat, action: Action, pid: nat, c: nat)
    requires Grouped(tasks) && i < |tasks| && j == GroupEnd(tasks, i, i + 1)
    ensures Asked(tasks, i, action, pid, c) <==>
      if pid == tasks[i].pid then c in CpusOf(tasks, i, j, action) else Asked(tasks, j, action, pid, c)
    ensures pid == tasks[i].pid ==> !Asked(tasks, j, action, pid, c)
  {
    InCpus(tasks, i, j, action, c);
    hide CpusOf;
    hide GroupEnd;
    assert forall k :: j <= k < |tasks| ==> tasks[k].pid != tasks[i].pid by {
      hide Asked;
    }
    hide Grouped;
  }

  lemma NothingAsked(tasks: seq<Task>, i: nat, pid: nat, c: nat)
    requires i >= |tasks|
    ensures !Asked(tasks, i, Enable, pid, c) && !Asked(tasks, i, Disable, pid, c)
  {
  }

  lemma {:induction false} GroupedMeans(tasks: seq<Task>, i: nat, self: nat, async: bool, on: Enabled, pid: nat, c: nat)
    requires Grouped(tasks)
    ensures var calls := CallsFrom(tasks, i, self, async);
      (pid, c) in Perform(calls, |calls|, on) <==>
        if !Served(pid, self, async) then (pid, c) in on
        else if Asked(tasks, i, Disable, pid, c) then false
        else Asked(tasks, i, Enable, pid, c) || (pid, c) in on
    decreases |tasks| - i
  {
    hide Grouped, Asked, GroupCalls, CpusOf, Perform, GroupEnd;
    if i >= |tasks| {
      NothingAsked(tasks, i, pid, c);
      PerformNothing(on);
    } else {
      var j := GroupEnd(tasks, i, i + 1);
      var a, b := GroupCalls(tasks, i, j, self, async), CallsFrom(tasks, j, self, async);
      AskedInGroup(tasks, i, j, Enable, pid, c);
      AskedInGroup(tasks, i, j, Disable, pid, c);
      PerformAppend(a, b, |b|, on);
      GroupMeans(tasks, i, j, self, async, on, pid, c);
      GroupedMeans(tasks, j, self, async, Perform(a, |a|, on), pid, c);
    }
  }

  // ---------------------------------------------------------------- equivalence

  lemma {:induction false} LastIsAsked(tasks: seq<Task>, n: nat, pid: nat, c: nat)
    requires n <= |tasks|
    ensures LastOf(tasks, n, pid, c).LastWas? ==> Asked(tasks, 0, LastOf(tasks, n, pid, c).action, pid, c)
    ensures LastOf(tasks, n, pid, c).Never? ==> forall k :: 0 <= k < n ==> tasks[k].pid != pid || tasks[k].cpu != c
  {
    if n > 0 {
      LastIsAsked(tasks, n - 1, pid, c);
      if tasks[n - 1].pid == pid && tasks[n - 1].cpu == c {
        assert tasks[n - 1] == Task(tasks[n - 1].action, pid, c);
      }
    }
  }

  /** Nothing that a process is asked to disable is enabled again later in the list. */
  ghost predicate DisablesStand(tasks: seq<Task>, self: nat, async: bool) {
    forall pid, c :: Served(pid, self, async) && Asked(tasks, 0, Disable, pid, c) ==>
      LastOf(tasks, |tasks|, pid, c) == LastWas(Disable)
  }

  lemma PairAgrees(tasks: seq<Task>, items: seq<Task>, self: nat, async: bool, on: Enabled, pid: nat, c: nat)
    requires Arranged(tasks, items)
    ensures var calls := CallsFrom(items, 0, self, async);
      ((pid, c) in Perform(calls, |calls|, on) <==> (pid, c) in OneByOne(tasks, |tasks|, self, async, on)) <==>
        !(Served(pid, self, async) && Asked(tasks, 0, Disable, pid, c) && LastOf(tasks, |tasks|, pid, c) == LastWas(Enable))
  {
    ArrangedIsGrouped(tasks, items);
    SameAsked(tasks, items, Enable, pid, c);
    SameAsked(tasks, items, Disable, pid, c);
    hide Arranged, Grouped, Perform, CallsFrom, OneByOne, Asked, LastOf;
    GroupedMeans(items, 0, self, async, on, pid, c);
    OneByOneMeans(tasks, |tasks|, self, async, on, pid, c);
    LastOrNever(tasks, pid, c);
  }

  /** A process was asked something about a CPU exactly when there is a last such task. */
  lemma LastOrNever(tasks: seq<Task>, pid: nat, c: nat)
    ensures var last := LastOf(tasks, |tasks|, pid, c);
      && (last == Never || last == LastWas(Enable) || last == LastWas(Disable))
      && (last == LastWas(Enable) ==> Asked(tasks, 0, Enable, pid, c))
      && (last == LastWas(Disable) ==> Asked(tasks, 0, Disable, pid, c))
      && (last == Never ==> !Asked(tasks, 0, Enable, pid, c) && !Asked(tasks, 0, Disable, pid, c))
  {
    LastIsAsked(tasks, |tasks|, pid, c);
    var last := LastOf(tasks, |tasks|, pid, c);
    hide LastOf;
    assert last.LastWas? ==> last.action == Enable || last.action == Disable;
  }

  lemma SameAsked(tasks: seq<Task>, items: seq<Task>, action: Action, pid: nat, c: nat)
    requires forall t :: t in items <==> t in tasks
    ensures Asked(items, 0, action, pid, c) <==> Asked(tasks, 0, action, pid, c)
  {
    assert Asked(items, 0, action, pid, c) <==> Task(action, pid, c) in items;
    assert Asked(tasks, 0, action, pid, c) <==> Task(action, pid, c) in tasks;
  }

  /** Grouped delivery leaves the same CPUs enabled as delivering the tasks one by one, from every starting
      point and for every order that the sort may choose, exactly when disables stand. */
  lemma GroupingPreservesMeaning(tasks: seq<Task>, items: seq<Task>, self: nat, async: bool, on: Enabled)
    requires Arranged(tasks, items)
    ensures var calls := CallsFrom(items, 0, self, async);
      Perform(calls, |calls|, on) == OneByOne(tasks, |tasks|, self, async, on) <==> DisablesStand(tasks, self, async)
  {
    hide Arranged, Perform, CallsFrom, OneByOne, LastOf, Asked;
    var calls := CallsFrom(items, 0, self, async);
    forall pid: nat, c: nat
      ensures ((pid, c) in Perform(calls, |calls|, on) <==> (pid, c) in OneByOne(tasks, |tasks|, self, async, on)) <==>
        !(Served(pid, self, async) && Asked(tasks, 0, Disable, pid, c) && LastOf(tasks, |tasks|, pid, c) == LastWas(Enable))
    {
      PairAgrees(tasks, items, self, async, on, pid, c);
    }
    if DisablesStand(tasks, self, async) {
      SamePairs(Perform(calls, |calls|, on), OneByOne(tasks, |tasks|, self, async, on));
    } else {
      var pid: nat, c: nat :| Served(pid, self, async) && Asked(tasks, 0, Disable, pid, c) &&
        LastOf(tasks, |tasks|, pid, c) != LastWas(Disable);
      LastOrNever(tasks, pid, c);
      assert !((pid, c) in Perform(calls, |calls|, on) <==> (pid, c) in OneByOne(tasks, |tasks|, self, async, on));
    }
  }

  lemma SamePairs(a: Enabled, b: Enabled)
    requires forall pid: nat, c: nat :: (pid, c) in a <==> (pid, c) in b
    ensures a == b
  {
    forall x: (nat, nat) ensures x in a <==> x in b {
      assert x == (x.0, x.1);
    }
  }

  /** Process 7 is told to stop on CPU 0 and then to use it again: one by one the CPU ends enabled, grouped it
      ends disabled. */
  lemma GroupingDisables()
    ensures var tasks := [Task(Disable, 7, 0), Task(Enable, 7, 0)];
      var calls := CallsFrom(tasks, 0, 7, false);
      && Arranged(tasks, tasks) && OneByOne(tasks, 2, 7, false, {}) == {(7, 0)}
      && calls == [Call(Enable, 7, {0}), Call(Disable, 7, {0})] && (7, 0) !in Perform(calls, 2, {})
  {
    var tasks := [Task(Disable, 7, 0), Task(Enable, 7, 0)];
    assert GroupEnd(tasks, 0, 1) == 2;
    assert tasks[1] == Task(Enable, 7, 0) && tasks[0] == Task(Disable, 7, 0);
    assert CpusOf(tasks, 0, 2, Enable) == {0} && CpusOf(tasks, 0, 2, Disable) == {0};
    assert CallsFrom(tasks, 2, 7, false) == [];
    var calls := CallsFrom(tasks, 0, 7, false);
    assert calls == [Call(Enable, 7, {0}), Call(Disable, 7, {0})];
    var between := Perform(calls, 1, {});
    assert Pairs(7, {0}) == {(7, 0)};
    assert OneByOne(tasks, 1, 7, false, {}) == {};
  }

  /** In particular when no process is asked both to enable and to disable the same CPU. */
  lemma NoConflictIsEnough(tasks: seq<Task>, self: nat, async: bool)
    requires forall pid, c :: !(Asked(tasks, 0, Enable, pid, c) && Asked(tasks, 0, Disable, pid, c))
    ensures DisablesStand(tasks, self, async)
  {
    forall pid: nat, c: nat | Asked(tasks, 0, Disable, pid, c) ensures LastOf(tasks, |tasks|, pid, c) == LastWas(Disable) {
      LastOrNever(tasks, pid, c);
    }
  }

  // ---------------------------------------------------------------- each task once

  /** Some call from k on carries this action for this CPU to this process. */
  ghost predicate Carried(calls: seq<Call>, action: Action, pid: nat, c: nat) {
    exists k :: 0 <= k < |calls| && calls[k].action == action && calls[k].pid == pid && c in calls[k].cpus
  }

  lemma CarriedAppend(a: seq<Call>, b: seq<Call>, action: Action, pid: nat, c: nat)
    ensures Carried(a + b, action, pid, c) <==> Carried(a, action, pid, c) || Carried(b, action, pid, c)
  {
    if Carried(a, action, pid, c) {
      var k :| 0 <= k < |a| && a[k].action == action && a[k].pid == pid && c in a[k].cpus;
      assert (a + b)[k] == a[k];
    }
    if Carried(b, action, pid, c) {
      var k :| 0 <= k < |b| && b[k].action == action && b[k].pid == pid && c in b[k].cpus;
      assert (a + b)[|a| + k] == b[k];
    }
  }

  lemma GroupCarries(tasks: seq<Task>, i: nat, j: nat, self: nat, async: bool, action: Action, pid: nat, c: nat)
    requires i < j <= |tasks|
    ensures Carried(GroupCalls(tasks, i, j, self, async), action, pid, c) <==>
      pid == tasks[i].pid && Served(pid, self, async) && c in CpusOf(tasks, i, j, action)
  {
    hide CpusOf;
    var q := tasks[i].pid;
    var e, d := CpusOf(tasks, i, j, Enable), CpusOf(tasks, i, j, Disable);
    CarriedAppend(CallFor(Enable, q, e), CallFor(Disable, q, d), action, pid, c);
    OneCallCarries(Enable, q, e, action, pid, c);
    OneCallCarries(Disable, q, d, action, pid, c);
    hide Carried, CallFor;
    NoCallCarries(action, pid, c);
  }

  lemma NoCallCarries(action: Action, pid: nat, c: nat)
    ensures !Carried([], action, pid, c)
  {
  }

  lemma OneCallCarries(a: Action, q: nat, cpus: set<nat>, action: Action, pid: nat, c: nat)
    ensures Carried(CallFor(a, q, cpus), action, pid, c) <==> a == action && q == pid && c in cpus
  {
    if cpus != {} {
      assert CallFor(a, q, cpus)[0] == Call(a, q, cpus);
    }
  }

  /** The calls ask each served process for exactly what its tasks asked. */
  lemma {:induction false} CallsCarryTasks(tasks: seq<Task>, i: nat, self: nat, async: bool, action: Action,
      pid: nat, c: nat)
    requires Grouped(tasks)
    ensures Carried(CallsFrom(tasks, i, self, async), action, pid, c) <==>
      Served(pid, self, async) && Asked(tasks, i, action, pid, c)
    decreases |tasks| - i
  {
    hide Grouped, Asked, GroupCalls, CpusOf, GroupEnd, Carried;
    if i >= |tasks| {
      NothingAsked(tasks, i, pid, c);
      NoCallCarries(action, pid, c);
    } else {
      var j := GroupEnd(tasks, i, i + 1);
      AskedInGroup(tasks, i, j, action, pid, c);
      GroupCarries(tasks, i, j, self, async, action, pid, c);
      CarriedAppend(GroupCalls(tasks, i, j, self, async), CallsFrom(tasks, j, self, async), action, pid, c);
      CallsCarryTasks(tasks, j, self, async, action, pid, c);
    }
  }

  /** Every call is for a process that still has tasks from i on. */
  lemma {:induction false} CallsAreAhead(tasks: seq<Task>, i: nat, self: nat, async: bool, k: nat) returns (m: nat)
    requires k < |CallsFrom(tasks, i, self, async)|
    ensures i <= m < |tasks| && tasks[m].pid == CallsFrom(tasks, i, self, async)[k].pid
    decreases |tasks| - i
  {
    hide GroupEnd, GroupCalls;
    var j := GroupEnd(tasks, i, i + 1);
    var a := GroupCalls(tasks, i, j, self, async);
    GroupHasOneEach(tasks, i, j, self, async);
    if k < |a| {
      m := i;
    } else {
      m := CallsAreAhead(tasks, j, self, async, k - |a|);
    }
  }

  /** No process gets two calls of the same kind. */
  ghost predicate AtMostOneEach(calls: seq<Call>) {
    forall k, l :: 0 <= k < l < |calls| ==> calls[k].pid != calls[l].pid || calls[k].action != calls[l].action
  }

  lemma GroupHasOneEach(tasks: seq<Task>, i: nat, j: nat, self: nat, async: bool)
    requires i < j <= |tasks|
    ensures var a := GroupCalls(tasks, i, j, self, async);
      AtMostOneEach(a) && forall k :: 0 <= k < |a| ==> a[k].pid == tasks[i].pid
  {
    hide CpusOf;
  }

  lemma OneEachAppend(a: seq<Call>, b: seq<Call>, pid: nat)
    requires AtMostOneEach(a) && AtMostOneEach(b)
    requires (forall k :: 0 <= k < |a| ==> a[k].pid == pid) && forall l :: 0 <= l < |b| ==> b[l].pid != pid
    ensures AtMostOneEach(a + b)
  {
  }

  lemma OtherGroups(tasks: seq<Task>, i: nat, m: nat)
    requires Grouped(tasks) && i < |tasks| && GroupEnd(tasks, i, i + 1) <= m < |tasks|
    ensures tasks[m].pid != tasks[i].pid
  {
    var j := GroupEnd(tasks, i, i + 1);
    hide GroupEnd;
    assert tasks[j].pid != tasks[i].pid;
  }

  lemma {:induction false} OneCallEach(tasks: seq<Task>, i: nat, self: nat, async: bool)
    requires Grouped(tasks)
    ensures AtMostOneEach(CallsFrom(tasks, i, self, async))
    decreases |tasks| - i
  {
    hide GroupEnd, GroupCalls, Grouped, AtMostOneEach;
    if i >= |tasks| {
      NoCalls();
    } else {
      var j := GroupEnd(tasks, i, i + 1);
      var a, b := GroupCalls(tasks, i, j, self, async), CallsFrom(tasks, j, self, async);
      OneCallEach(tasks, j, self, async);
      GroupHasOneEach(tasks, i, j, self, async);
      forall l | 0 <= l < |b| ensures b[l].pid != tasks[i].pid {
        var m := CallsAreAhead(tasks, j, self, async, l);
        OtherGroups(tasks, i, m);
      }
      OneEachAppend(a, b, tasks[i].pid);
    }
  }

  lemma NoCalls()
    ensures AtMostOneEach([])
  {
  }

  /** Every task of a served process is carried by exactly one call, and every call carries only tasks. */
  lemma EachTaskOnce(tasks: seq<Task>, items: seq<Task>, self: nat, async: bool, action: Action, pid: nat, c: nat)
    requires Arranged(tasks, items)
    ensures var calls := CallsFrom(items, 0, self, async);
      && (Carried(calls, action, pid, c) <==> Served(pid, self, async) && Task(action, pid, c) in tasks)
      && AtMostOneEach(calls)
  {
    ArrangedIsGrouped(tasks, items);
    hide Arranged, Carried, CallsFrom, AtMostOneEach;
    CallsCarryTasks(items, 0, self, async, action, pid, c);
    OneCallEach(items, 0, self, async);
    assert Asked(items, 0, action, pid, c) <==> Task(action, pid, c) in items;
  }

  // ---------------------------------------------------------------- the delivery loop

  /** Insertion in front of the first task of a later process. */
  function Insert(t: Task, tasks: seq<Task>): seq<Task> {
    if tasks == [] || t.pid <= tasks[0].pid then [t] + tasks else [tasks[0]] + Insert(t, tasks[1..])
  }

  /** The order that a stable sort by process chooses. */
  function Sorted(tasks: seq<Task>): seq<Task> {
    if tasks == [] then [] else Insert(tasks[0], Sorted(tasks[1..]))
  }

  ghost predicate AllFrom(pid: nat, tasks: seq<Task>) {
    forall i :: 0 <= i < |tasks| ==> pid <= tasks[i].pid
  }

  lemma ConsSorted(t: Task, tasks: seq<Task>)
    requires SortedByPid(tasks) && AllFrom(t.pid, tasks)
    ensures SortedByPid([t] + tasks)
  {
  }

  lemma {:induction false} InsertSorts(t: Task, tasks: seq<Task>, pid: nat)
    requires SortedByPid(tasks)
    ensures SortedByPid(Insert(t, tasks))
    ensures pid <= t.pid && AllFrom(pid, tasks) ==> AllFrom(pid, Insert(t, tasks))
    decreases |tasks|
  {
    if tasks == [] || t.pid <= tasks[0].pid {
      ConsSorted(t, tasks);
    } else {
      InsertSorts(t, tasks[1..], tasks[0].pid);
      InsertSorts(t, tasks[1..], pid);
      ConsSorted(tasks[0], Insert(t, tasks[1..]));
    }
  }

  lemma {:induction false} InsertPermutes(t: Task, tasks: seq<Task>)
    ensures multiset(Insert(t, tasks)) == multiset([t]) + multiset(tasks)
    decreases |tasks|
  {
    if tasks != [] && t.pid > tasks[0].pid {
      InsertPermutes(t, tasks[1..]);
      assert tasks == [tasks[0]] + tasks[1..];
    }
  }

  lemma {:induction false} SortedIsArranged(tasks: seq<Task>)
    ensures SortedByPid(Sorted(tasks)) && multiset(Sorted(tasks)) == multiset(tasks)
    decreases |tasks|
  {
    if tasks != [] {
      SortedIsArranged(tasks[1..]);
      InsertSorts(tasks[0], Sorted(tasks[1..]), 0);
      InsertPermutes(tasks[0], Sorted(tasks[1..]));
      assert tasks == [tasks[0]] + tasks[1..];
    }
  }

  /** The calls for some arrangement of the tasks. */
  ghost predicate Delivers(tasks: seq<Task>, calls: seq<Call>, self: nat, async: bool) {
    exists items :: Arranged(tasks, items) && calls == CallsFrom(items, 0, self, async)
  }

  /** resolve_cpuinfo_tasks, with its calls in order. */
  method Resolve(tasks: seq<Task>, self: nat, async: bool) returns (calls: seq<Call>)
    ensures Delivers(tasks, calls, self, async)
  {
    var list := tasks;
    if |tasks| > 2 {
      SortedIsArranged(tasks);
      list := Sorted(tasks);
    }
    assert Arranged(tasks, list);
    hide Arranged, CpusOf, Sorted, GroupEnd;
    calls := [];
    var i := 0;
    while i < |list|
      invariant i <= |list|
      invariant calls + CallsFrom(list, i, self, async) == CallsFrom(list, 0, self, async)
    {
      var j := FindEnd(list, i);
      var toEnable, toDisable := Gather(list, i, j);
      var pid := list[i].pid;
      var group := [];
      if pid == self || async {
        group := CallFor(Enable, pid, toEnable) + CallFor(Disable, pid, toDisable);
      }
      Associate(calls, group, CallsFrom(list, j, self, async));
      calls := calls + group;
      i := j;
    }
    assert calls == CallsFrom(list, 0, self, async);
  }

  lemma Associate(a: seq<Call>, b: seq<Call>, d: seq<Call>)
    ensures a + (b + d) == (a + b) + d
  {
  }

  method FindEnd(list: seq<Task>, i: nat) returns (j: nat)
    requires i < |list|
    ensures j == GroupEnd(list, i, i + 1)
  {
    j := i + 1;
    while j < |list| && list[j].pid == list[i].pid
      invariant i < j <= |list|
      invariant GroupEnd(list, i, i + 1) == GroupEnd(list, i, j)
    {
      j := j + 1;
    }
  }

  method Gather(list: seq<Task>, i: nat, j: nat) returns (toEnable: set<nat>, toDisable: set<nat>)
    requires i <= j <= |list|
    ensures toEnable == CpusOf(list, i, j, Enable) && toDisable == CpusOf(list, i, j, Disable)
  {
    toEnable, toDisable := {}, {};
    var k := i;
    while k < j
      invariant i <= k <= j
      invariant toEnable == CpusOf(list, i, k, Enable) && toDisable == CpusOf(list, i, k, Disable)
    {
      if list[k].action == Enable {
        toEnable := toEnable + {list[k].cpu};
      } else {
        toDisable := toDisable + {list[k].cpu};
      }
      k := k + 1;
    }
  }
}
