/** The exchange of core deltas among MNGO managers (src/LB_comm/shmem_mngo.c): in every round each manager
    writes its delta, waits, reads all of them one by one, waits, manager 0 clears them one by one, and all wait
    again. Managers are interleaved in any order between barriers. */
module MngoExchange {

  /** phase 0 writes, 1 reads, 2 cleans up; cursor is the next entry of the loop of the phase. A manager that
      waits has finished its phase and stands in the barrier that ends it. */
  datatype Manager = Manager(round: nat, phase: nat, waiting: bool, cursor: nat, out: seq<int>)

  /** entries are the drom_core_change fields; attached says which slots have a process. */
  datatype Node = Node(attached: seq<bool>, entries: seq<int>, managers: seq<Manager>)

  predicate Shape(n: Node) {
    |n.attached| == |n.entries| == |n.managers|
  }

  predicate In(n: Node, i: nat) {
    Shape(n) && i < |n.managers| && n.attached[i]
  }

  /** Barriers passed so far. */
  function Passed(m: Manager): nat {
    3 * m.round + m.phase
  }

  type Plan = (nat, nat) -> int

  // ---------------------------------------------------------------- steps

  /** The next action of a manager that is not waiting; deltas(i, r) is what manager i offers in round r. */
  function Work(n: Node, i: nat, deltas: Plan): (t: Node)
    requires In(n, i)
    ensures Shape(t) && t.attached == n.attached && |t.managers| == |n.managers|
  {
    var m := n.managers[i];
    if m.phase == 0 then
      n.(entries := n.entries[i := deltas(i, m.round)], managers := n.managers[i := m.(waiting := true)])
    else if m.phase == 1 && m.cursor < |n.entries| && |m.out| == |n.entries| then
      var value := if n.attached[m.cursor] then n.entries[m.cursor] else 0;
      n.(managers := n.managers[i := m.(cursor := m.cursor + 1, out := m.out[m.cursor := value])])
    else if m.phase == 2 && i == 0 && m.cursor < |n.entries| then
      n.(entries := n.entries[m.cursor := 0], managers := n.managers[i := m.(cursor := m.cursor + 1)])
    else n.(managers := n.managers[i := m.(waiting := true)])
  }

  /** pthread_barrier_wait lets a manager go once all the others have arrived. */
  predicate MayLeave(n: Node, i: nat)
    requires In(n, i)
  {
    n.managers[i].waiting &&
    forall j :: 0 <= j < |n.managers| && n.attached[j] ==>
      Passed(n.managers[j]) > Passed(n.managers[i]) || (Passed(n.managers[j]) == Passed(n.managers[i]) && n.managers[j].waiting)
  }

  function Leave(n: Node, i: nat): (t: Node)
    requires In(n, i)
    ensures Shape(t) && t.attached == n.attached && |t.managers| == |n.managers|
  {
    var m := n.managers[i];
    var next := if m.phase >= 2 then m.(round := m.round + 1, phase := 0) else m.(phase := m.phase + 1);
    n.(managers := n.managers[i := next.(waiting := false, cursor := 0)])
  }

  datatype Step = Act(i: nat) | Go(i: nat)

  predicate Enabled(n: Node, step: Step) {
    In(n, step.i) && if step.Act? then !n.managers[step.i].waiting else MayLeave(n, step.i)
  }

  function Apply(n: Node, step: Step, deltas: Plan): Node
    requires Enabled(n, step)
  {
    if step.Act? then Work(n, step.i, deltas) else Leave(n, step.i)
  }

  // ---------------------------------------------------------------- invariant

  /** Nobody is more than one barrier ahead, and only of managers that have arrived at it. */
  ghost predicate InStep(n: Node) {
    Shape(n) && forall i, j :: 0 <= i < |n.managers| && 0 <= j < |n.managers| && n.attached[i] && n.attached[j] ==>
      Near(n.managers[i], n.managers[j])
  }

  ghost predicate Near(a: Manager, b: Manager) {
    Passed(a) <= Passed(b) + 1 && (Passed(a) == Passed(b) + 1 ==> b.waiting)
  }

  /** The entry of a manager holds its delta of round r. */
  predicate Written(m: Manager, r: nat) {
    m.round == r && ((m.phase == 0 && m.waiting) || m.phase == 1)
  }

  ghost predicate NoneCleaning(n: Node, r: nat) {
    forall k :: 0 <= k < |n.managers| && k < |n.attached| && n.attached[k] ==> Passed(n.managers[k]) < 3 * r + 2
  }

  /** Until somebody gets to the clean-up, what was written in a round is still there. */
  ghost predicate Kept(n: Node, deltas: Plan) {
    Shape(n) &&
    forall j, r: nat :: 0 <= j < |n.managers| && n.attached[j] && Written(n.managers[j], r) && NoneCleaning(n, r) ==>
      n.entries[j] == deltas(j, r)
  }

  /** What everybody should read in entry k. */
  function Expected(n: Node, deltas: Plan, r: nat, k: nat): int
    requires k < |n.attached|
  {
    if n.attached[k] then deltas(k, r) else 0
  }

  ghost predicate ReadOk(n: Node, m: Manager, deltas: Plan) {
    && m.phase <= 2 && |m.out| == |n.attached| && m.cursor <= |n.attached|
    && (m.phase == 1 ==> forall k :: 0 <= k < m.cursor ==> m.out[k] == Expected(n, deltas, m.round, k))
    && (m.phase == 1 && m.waiting ==> m.cursor == |n.attached|)
    && (m.phase == 2 ==> forall k :: 0 <= k < |n.attached| ==> m.out[k] == Expected(n, deltas, m.round, k))
  }

  ghost predicate ReadsOk(n: Node, deltas: Plan) {
    Shape(n) && forall i :: 0 <= i < |n.managers| && n.attached[i] ==> ReadOk(n, n.managers[i], deltas)
  }

  ghost predicate Inv(n: Node, deltas: Plan) {
    InStep(n) && Kept(n, deltas) && ReadsOk(n, deltas)
  }

  /** While a manager reads, everybody has written and nobody has started to clean up. */
  lemma ReaderSees(n: Node, deltas: Plan, i: nat, j: nat)
    requires Inv(n, deltas) && In(n, i) && In(n, j) && n.managers[i].phase == 1 && !n.managers[i].waiting
    ensures n.entries[j] == deltas(j, n.managers[i].round)
  {
    var r := n.managers[i].round;
    assert NoneCleaning(n, r) by {
      forall k | 0 <= k < |n.managers| && n.attached[k] ensures Passed(n.managers[k]) < 3 * r + 2 {
        assert Near(n.managers[k], n.managers[i]);
      }
    }
    assert Near(n.managers[i], n.managers[j]) && Near(n.managers[j], n.managers[i]);
    assert ReadOk(n, n.managers[j], deltas);
    assert Written(n.managers[j], r);
  }

  /** While manager 0 cleans up, nobody reads and nobody has begun to write for the next round. */
  lemma CleanUpIsAlone(n: Node, deltas: Plan, j: nat)
    requires Inv(n, deltas) && In(n, 0) && In(n, j) && n.managers[0].phase == 2 && !n.managers[0].waiting
    ensures var m := n.managers[j];
      m.round == n.managers[0].round && (m.phase == 2 || (m.phase == 1 && m.waiting))
  {
    assert Near(n.managers[0], n.managers[j]) && Near(n.managers[j], n.managers[0]);
    assert ReadOk(n, n.managers[j], deltas);
  }

  // ---------------------------------------------------------------- each step keeps it

  lemma WorkInStep(n: Node, deltas: Plan, i: nat)
    requires Inv(n, deltas) && In(n, i) && !n.managers[i].waiting
    ensures InStep(Work(n, i, deltas))
  {
    var t := Work(n, i, deltas);
    assert Passed(t.managers[i]) == Passed(n.managers[i]);
    forall a, b | 0 <= a < |t.managers| && 0 <= b < |t.managers| && t.attached[a] && t.attached[b]
      ensures Near(t.managers[a], t.managers[b])
    {
      assert Near(n.managers[a], n.managers[b]);
    }
  }

  lemma LeaveInStep(n: Node, deltas: Plan, i: nat)
    requires Inv(n, deltas) && In(n, i) && MayLeave(n, i)
    ensures InStep(Leave(n, i))
  {
    var t := Leave(n, i);
    assert ReadOk(n, n.managers[i], deltas);
    assert Passed(t.managers[i]) == Passed(n.managers[i]) + 1;
    forall a, b | 0 <= a < |t.managers| && 0 <= b < |t.managers| && t.attached[a] && t.attached[b]
      ensures Near(t.managers[a], t.managers[b])
    {
      assert Near(n.managers[a], n.managers[b]);
    }
  }

  /** A manager that only moves on leaves the entries alone. */
  lemma LeaveKept(n: Node, deltas: Plan, i: nat)
    requires Inv(n, deltas) && In(n, i) && MayLeave(n, i)
    ensures Kept(Leave(n, i), deltas)
  {
    var t := Leave(n, i);
    assert ReadOk(n, n.managers[i], deltas);
    forall j, r: nat | 0 <= j < |t.managers| && t.attached[j] && Written(t.managers[j], r) && NoneCleaning(t, r)
      ensures t.entries[j] == deltas(j, r)
    {
      NoneCleaningBefore(n, t, i, r);
      assert Written(n.managers[j], r);
    }
  }

  /** Barriers are only ever passed: if nobody is that far after a step, nobody was before. */
  lemma NoneCleaningBefore(n: Node, t: Node, i: nat, r: nat)
    requires Shape(n) && Shape(t) && i < |n.managers| == |t.managers| && t.attached == n.attached
    requires forall k :: 0 <= k < |n.managers| && k != i ==> t.managers[k] == n.managers[k]
    requires Passed(n.managers[i]) <= Passed(t.managers[i]) && NoneCleaning(t, r)
    ensures NoneCleaning(n, r)
  {
  }

  lemma NobodyAhead(n: Node, deltas: Plan)
    requires Inv(n, deltas) && In(n, 0) && n.managers[0].phase == 2 && !n.managers[0].waiting
    ensures forall j :: 0 <= j < |n.managers| && n.attached[j] ==> n.managers[j].round == n.managers[0].round
  {
    forall j | 0 <= j < |n.managers| && n.attached[j] ensures n.managers[j].round == n.managers[0].round {
      CleanUpIsAlone(n, deltas, j);
    }
  }

  lemma WorkKept(n: Node, deltas: Plan, i: nat)
    requires Inv(n, deltas) && In(n, i) && !n.managers[i].waiting
    ensures Kept(Work(n, i, deltas), deltas)
  {
    var t := Work(n, i, deltas);
    var m := n.managers[i];
    assert ReadOk(n, m, deltas);
    var cleaning := m.phase == 2 && i == 0 && m.cursor < |n.entries|;
    if cleaning {
      NobodyAhead(n, deltas);
      assert Passed(t.managers[0]) == 3 * m.round + 2;
    }
    forall j, r: nat | 0 <= j < |t.managers| && t.attached[j] && Written(t.managers[j], r) && NoneCleaning(t, r)
      ensures t.entries[j] == deltas(j, r)
    {
      NoneCleaningBefore(n, t, i, r);
      if !cleaning && (j != i || m.phase != 0) {
        assert Written(n.managers[j], r);
      }
    }
  }

  lemma WorkReads(n: Node, deltas: Plan, i: nat)
    requires Inv(n, deltas) && In(n, i) && !n.managers[i].waiting
    ensures ReadsOk(Work(n, i, deltas), deltas)
  {
    var t := Work(n, i, deltas);
    var m := n.managers[i];
    assert ReadOk(n, m, deltas);
    if m.phase == 1 && m.cursor < |n.entries| && n.attached[m.cursor] {
      ReaderSees(n, deltas, i, m.cursor);
    }
    forall j | 0 <= j < |t.managers| && t.attached[j] ensures ReadOk(t, t.managers[j], deltas) {
      assert ReadOk(n, n.managers[j], deltas);
    }
  }

  lemma LeaveReads(n: Node, deltas: Plan, i: nat)
    requires Inv(n, deltas) && In(n, i) && MayLeave(n, i)
    ensures ReadsOk(Leave(n, i), deltas)
  {
    var t := Leave(n, i);
    forall j | 0 <= j < |t.managers| && t.attached[j] ensures ReadOk(t, t.managers[j], deltas) {
      assert ReadOk(n, n.managers[j], deltas);
    }
  }

  lemma StepKeeps(n: Node, step: Step, deltas: Plan)
    requires Inv(n, deltas) && Enabled(n, step)
    ensures Inv(Apply(n, step, deltas), deltas)
  {
    hide InStep, Kept, ReadsOk, Work, Leave, MayLeave;
    if step.Act? {
      WorkInStep(n, deltas, step.i);
      WorkKept(n, deltas, step.i);
      WorkReads(n, deltas, step.i);
    } else {
      LeaveInStep(n, deltas, step.i);
      LeaveKept(n, deltas, step.i);
      LeaveReads(n, deltas, step.i);
    }
  }

  // ---------------------------------------------------------------- runs

  ghost predicate IsRun(n: Node, steps: seq<Step>, deltas: Plan)
    decreases |steps|
  {
    steps == [] || (Enabled(n, steps[0]) && IsRun(Apply(n, steps[0], deltas), steps[1..], deltas))
  }

  function Run(n: Node, steps: seq<Step>, deltas: Plan): Node
    decreases |steps|
  {
    if steps == [] || !Enabled(n, steps[0]) then n else Run(Apply(n, steps[0], deltas), steps[1..], deltas)
  }

  lemma {:induction false} RunKeeps(n: Node, steps: seq<Step>, deltas: Plan)
    requires Inv(n, deltas) && IsRun(n, steps, deltas)
    ensures Inv(Run(n, steps, deltas), deltas)
    decreases |steps|
  {
    hide Inv, Apply, Enabled;
    if steps != [] {
      StepKeeps(n, steps[0], deltas);
      RunKeeps(Apply(n, steps[0], deltas), steps[1..], deltas);
    }
  }

  /** Before the first round, with anything in the entries. */
  function Start(attached: seq<bool>, entries: seq<int>): Node
    requires |attached| == |entries|
  {
    Node(attached, entries, seq(|attached|, _ => Manager(0, 0, false, 0, seq(|attached|, _ => 0))))
  }

  lemma StartIsOk(attached: seq<bool>, entries: seq<int>, deltas: Plan)
    requires |attached| == |entries|
    ensures Inv(Start(attached, entries), deltas)
  {
  }

  /** Has read all the entries of its round. */
  predicate HasRead(m: Manager) {
    m.phase == 2 || (m.phase == 1 && m.waiting)
  }

  lemma {:induction false} SameAttached(n: Node, steps: seq<Step>, deltas: Plan)
    ensures Run(n, steps, deltas).attached == n.attached
    decreases |steps|
  {
    hide Work, Leave, Enabled;
    if steps != [] && Enabled(n, steps[0]) {
      SameAttached(Apply(n, steps[0], deltas), steps[1..], deltas);
    }
  }

  /** In every interleaving of every round, a manager that has finished reading holds exactly the deltas of
      that round, zero for the slots without a process; so all managers read the same vector. */
  lemma AllReadTheRound(attached: seq<bool>, entries: seq<int>, steps: seq<Step>, deltas: Plan, i: nat)
    requires |attached| == |entries| && IsRun(Start(attached, entries), steps, deltas)
    requires var n := Run(Start(attached, entries), steps, deltas); In(n, i) && HasRead(n.managers[i])
    ensures var m := Run(Start(attached, entries), steps, deltas).managers[i];
      m.out == seq(|attached|, k requires 0 <= k < |attached| => if attached[k] then deltas(k, m.round) else 0)
  {
    var s := Start(attached, entries);
    StartIsOk(attached, entries, deltas);
    RunKeeps(s, steps, deltas);
    SameAttached(s, steps, deltas);
    var n := Run(s, steps, deltas);
    hide Run, IsRun, InStep, Kept;
    assert ReadOk(n, n.managers[i], deltas);
  }

  /** In every reachable state the clean-up of manager 0 overlaps neither a read nor a write of the next round. */
  lemma CleanUpNeverOverlaps(attached: seq<bool>, entries: seq<int>, steps: seq<Step>, deltas: Plan, j: nat)
    requires |attached| == |entries| && IsRun(Start(attached, entries), steps, deltas)
    requires var n := Run(Start(attached, entries), steps, deltas);
      In(n, 0) && In(n, j) && n.managers[0].phase == 2 && !n.managers[0].waiting
    ensures var n := Run(Start(attached, entries), steps, deltas);
      n.managers[j].round == n.managers[0].round && HasRead(n.managers[j])
  {
    var s := Start(attached, entries);
    StartIsOk(attached, entries, deltas);
    RunKeeps(s, steps, deltas);
    hide Run, IsRun, Inv;
    CleanUpIsAlone(Run(s, steps, deltas), deltas, j);
  }

  /** The barrier never keeps everybody waiting: the managers furthest behind can always move. */
  lemma NeverStuck(n: Node, i: nat)
    requires In(n, i)
    requires forall j :: 0 <= j < |n.managers| && n.attached[j] ==> Passed(n.managers[i]) <= Passed(n.managers[j])
    ensures Enabled(n, Act(i)) || Enabled(n, Go(i)) ||
      exists j :: 0 <= j < |n.managers| && Enabled(n, Act(j))
  {
    if n.managers[i].waiting && !MayLeave(n, i) {
      var j :| 0 <= j < |n.managers| && n.attached[j] && Passed(n.managers[j]) <= Passed(n.managers[i]) && !n.managers[j].waiting;
      assert Enabled(n, Act(j));
    }
  }

  // ---------------------------------------------------------------- what the clean-up leaves

  /** Entry k was cleared after round r, and since then at most written by its own manager for a later round. */
  ghost predicate Clear(n: Node, r: nat, k: nat)
    requires Shape(n) && k < |n.entries|
  {
    n.entries[k] == 0 ||
    (n.attached[k] && (Passed(n.managers[k]) > 3 * (r + 1) || (Passed(n.managers[k]) == 3 * (r + 1) && n.managers[k].waiting)))
  }

  /** What manager 0 has cleared so far: the entries before its cursor, or all of them once it is past its clean-up. */
  ghost predicate Cleaned(n: Node) {
    In(n, 0) ==>
    var m := n.managers[0];
    && (m.phase == 2 ==> m.cursor <= |n.entries| && (m.waiting ==> m.cursor == |n.entries|)
                         && ClearBelow(n, m.round, m.cursor))
    && (m.phase < 2 && m.round > 0 ==> ClearBelow(n, m.round - 1, |n.entries|))
  }

  ghost predicate ClearBelow(n: Node, r: nat, to: nat)
    requires Shape(n)
  {
    forall k :: 0 <= k < to && k < |n.entries| ==> Clear(n, r, k)
  }

  /** A manager that moves leaves the other entries as clear as they were. */
  lemma StaysClear(n: Node, t: Node, i: nat, r: nat, k: nat)
    requires Shape(n) && Shape(t) && t.attached == n.attached && |t.entries| == |n.entries| && i < |n.managers| && k < |n.entries|
    requires forall j :: 0 <= j < |n.managers| && j != i ==> t.managers[j] == n.managers[j]
    requires Passed(t.managers[i]) > Passed(n.managers[i]) || (Passed(t.managers[i]) == Passed(n.managers[i]) && (n.managers[i].waiting ==> t.managers[i].waiting))
    requires t.entries[k] == n.entries[k] || t.entries[k] == 0
    requires Clear(n, r, k)
    ensures Clear(t, r, k)
  {
  }

  lemma LeaveCleans(n: Node, deltas: Plan, i: nat)
    requires Inv(n, deltas) && Cleaned(n) && In(n, i) && MayLeave(n, i)
    ensures Cleaned(Leave(n, i))
  {
    var t := Leave(n, i);
    assert ReadOk(n, n.managers[i], deltas);
    if In(n, 0) {
      forall k, r: nat | 0 <= k < |n.entries| && Clear(n, r, k) ensures Clear(t, r, k) {
        StaysClear(n, t, i, r, k);
      }
    }
    hide InStep, Kept, ReadsOk, Clear;
  }

  /** Whoever writes does so for a round after the last clean-up. */
  lemma WritesAfter(n: Node, deltas: Plan, i: nat, r: nat)
    requires Inv(n, deltas) && In(n, 0) && In(n, i) && n.managers[i].phase == 0 && !n.managers[i].waiting
    requires var m := n.managers[0]; (m.phase == 2 && r == m.round) || (m.phase < 2 && m.round > 0 && r == m.round - 1)
    ensures n.managers[i].round > r
  {
    assert Near(n.managers[0], n.managers[i]);
  }

  lemma WorkCleans(n: Node, deltas: Plan, i: nat)
    requires Inv(n, deltas) && Cleaned(n) && In(n, i) && !n.managers[i].waiting
    ensures Cleaned(Work(n, i, deltas))
  {
    var t := Work(n, i, deltas);
    if In(n, 0) {
      assert ReadOk(n, n.managers[0], deltas) && ReadOk(n, n.managers[i], deltas);
      var m := n.managers[0];
      var r := if m.phase == 2 then m.round else if m.round > 0 then m.round - 1 else 0;
      if m.phase == 2 || m.round > 0 {
        if n.managers[i].phase == 0 {
          WritesAfter(n, deltas, i, r);
        }
        forall k | 0 <= k < |n.entries| && Clear(n, r, k) ensures Clear(t, r, k) {
          if t.entries[k] == n.entries[k] || t.entries[k] == 0 {
            StaysClear(n, t, i, r, k);
          }
        }
        assert m.phase == 2 && i == 0 && m.cursor < |n.entries| ==> Clear(t, r, m.cursor);
      }
    }
    hide InStep, Kept, ReadsOk, Clear;
  }

  lemma {:induction false} RunCleans(n: Node, steps: seq<Step>, deltas: Plan)
    requires Inv(n, deltas) && Cleaned(n) && IsRun(n, steps, deltas)
    ensures Cleaned(Run(n, steps, deltas))
    decreases |steps|
  {
    if steps != [] {
      var step := steps[0];
      hide Inv, Cleaned, Work, Leave, MayLeave;
      StepKeeps(n, step, deltas);
      if step.Act? {
        WorkCleans(n, deltas, step.i);
      } else {
        LeaveCleans(n, deltas, step.i);
      }
      RunCleans(Apply(n, step, deltas), steps[1..], deltas);
    }
  }

  /** In every reachable state, if manager 0 takes part: when it stands in the barrier after its clean-up every entry is
      zero but those already written for the next round, and whoever begins a round but the first finds its own entry
      zero. */
  lemma EntriesAreCleared(attached: seq<bool>, entries: seq<int>, steps: seq<Step>, deltas: Plan, k: nat)
    requires |attached| == |entries| && k < |entries| && IsRun(Start(attached, entries), steps, deltas)
    requires In(Run(Start(attached, entries), steps, deltas), 0)
    ensures var n := Run(Start(attached, entries), steps, deltas); var m := n.managers[0];
      && k < |n.entries|
      && (m.phase == 2 && m.waiting ==>
            n.entries[k] == 0 || (n.attached[k] && n.managers[k].round > m.round && Written(n.managers[k], m.round + 1)))
      && (n.attached[k] && n.managers[k].phase == 0 && !n.managers[k].waiting && n.managers[k].round > 0 ==> n.entries[k] == 0)
  {
    var s := Start(attached, entries);
    StartIsOk(attached, entries, deltas);
    RunKeeps(s, steps, deltas);
    RunCleans(s, steps, deltas);
    SameAttached(s, steps, deltas);
    var n := Run(s, steps, deltas);
    hide Run, IsRun, Kept;
    var m := n.managers[0];
    assert ReadOk(n, m, deltas);
    assert m.phase == 2 && m.waiting ==> Clear(n, m.round, k);
    assert m.phase < 2 && m.round > 0 ==> Clear(n, m.round - 1, k);
    if n.attached[k] {
      assert Near(n.managers[k], n.managers[0]) && Near(n.managers[0], n.managers[k]);
      assert ReadOk(n, n.managers[k], deltas) && ReadOk(n, n.managers[0], deltas);
    }
  }

  // ---------------------------------------------------------------- progress

  /** How far a manager has come: barriers passed, and the steps of its phase. */
  function Age(m: Manager, size: nat): nat {
    Passed(m) * (size + 2) + if m.waiting then size + 1 else m.cursor
  }

  function TotalAge(ms: seq<Manager>, size: nat, n: nat): nat
    requires n <= |ms|
  {
    if n == 0 then 0 else TotalAge(ms, size, n - 1) + Age(ms[n - 1], size)
  }

  lemma {:induction false} TotalAgeGrows(ms: seq<Manager>, size: nat, i: nat, m: Manager, n: nat)
    requires i < |ms| && n <= |ms| && Age(m, size) > Age(ms[i], size)
    ensures TotalAge(ms[i := m], size, n) >= TotalAge(ms, size, n) + (if i < n then 1 else 0)
  {
    hide Age;
    if n > 0 {
      TotalAgeGrows(ms, size, i, m, n - 1);
    }
  }

  /** Every step brings its manager further. */
  lemma StepAdvances(n: Node, step: Step, deltas: Plan)
    requires Inv(n, deltas) && Enabled(n, step)
    ensures var t := Apply(n, step, deltas);
      && |t.managers| == |n.managers| && |t.entries| == |n.entries|
      && t.managers == n.managers[step.i := t.managers[step.i]]
      && Age(t.managers[step.i], |n.entries|) > Age(n.managers[step.i], |n.entries|)
  {
    var m := n.managers[step.i];
    assert ReadOk(n, m, deltas);
    var t := Apply(n, step, deltas);
    var later := t.managers[step.i];
    hide InStep, Kept, ReadsOk;
    if step.Go? {
      assert Passed(later) == Passed(m) + 1;
      assert (Passed(m) + 1) * (|n.entries| + 2) == Passed(m) * (|n.entries| + 2) + (|n.entries| + 2);
    } else {
      assert Passed(later) == Passed(m);
    }
  }

  lemma {:induction false} RunAdvances(n: Node, steps: seq<Step>, deltas: Plan)
    requires Inv(n, deltas) && IsRun(n, steps, deltas)
    ensures var t := Run(n, steps, deltas);
      && |t.managers| == |n.managers| && |t.entries| == |n.entries|
      && TotalAge(t.managers, |n.entries|, |t.managers|) >= TotalAge(n.managers, |n.entries|, |n.managers|) + |steps|
    decreases |steps|
  {
    if steps != [] {
      var step := steps[0];
      var t := Apply(n, step, deltas);
      hide Inv, Apply, Age, TotalAge;
      StepKeeps(n, step, deltas);
      StepAdvances(n, step, deltas);
      TotalAgeGrows(n.managers, |n.entries|, step.i, t.managers[step.i], |n.managers|);
      RunAdvances(t, steps[1..], deltas);
    }
  }

  lemma {:induction false} RunKeepsAbsent(n: Node, steps: seq<Step>, deltas: Plan, j: nat)
    requires Shape(n) && j < |n.managers| && !n.attached[j]
    ensures var t := Run(n, steps, deltas); |t.managers| == |n.managers| && t.managers[j] == n.managers[j]
    decreases |steps|
  {
    if steps != [] && Enabled(n, steps[0]) {
      RunKeepsAbsent(Apply(n, steps[0], deltas), steps[1..], deltas, j);
    }
  }

  lemma {:induction false} AgesBound(ms: seq<Manager>, size: nat, bound: nat, n: nat)
    requires n <= |ms| && forall j :: 0 <= j < n ==> Age(ms[j], size) <= bound
    ensures TotalAge(ms, size, n) <= n * bound
  {
    hide Age;
    if n > 0 {
      AgesBound(ms, size, bound, n - 1);
      assert n * bound == (n - 1) * bound + bound;
    }
  }

  /** Nobody who is at most one barrier past 3 * rounds - 1 is older than this. */
  function Oldest(rounds: nat, size: nat): nat {
    (3 * rounds + 1) * (size + 2)
  }

  lemma YoungerThan(m: Manager, size: nat, rounds: nat)
    requires Passed(m) <= 3 * rounds && m.cursor <= size
    ensures Age(m, size) <= Oldest(rounds, size)
  {
    var slack := 3 * rounds - Passed(m);
    assert Oldest(rounds, size) == Passed(m) * (size + 2) + slack * (size + 2) + (size + 2);
    assert slack * (size + 2) >= 0;
  }

  /** Every round completes: in a run of more steps than the managers can make in that many rounds, whatever their order,
      each of them has finished the rounds. */
  lemma RoundsComplete(attached: seq<bool>, entries: seq<int>, steps: seq<Step>, deltas: Plan, rounds: nat, i: nat)
    requires |attached| == |entries| && IsRun(Start(attached, entries), steps, deltas)
    requires In(Run(Start(attached, entries), steps, deltas), i)
    requires |steps| > |attached| * Oldest(rounds, |entries|)
    ensures Run(Start(attached, entries), steps, deltas).managers[i].round >= rounds
  {
    var s := Start(attached, entries);
    StartIsOk(attached, entries, deltas);
    RunKeeps(s, steps, deltas);
    RunAdvances(s, steps, deltas);
    SameAttached(s, steps, deltas);
    var n := Run(s, steps, deltas);
    if n.managers[i].round < rounds {
      assert ReadOk(n, n.managers[i], deltas);
      forall j | 0 <= j < |n.managers| ensures Age(n.managers[j], |entries|) <= Oldest(rounds, |entries|) {
        if n.attached[j] {
          assert Near(n.managers[j], n.managers[i]) && ReadOk(n, n.managers[j], deltas);
        } else {
          RunKeepsAbsent(s, steps, deltas, j);
        }
        YoungerThan(n.managers[j], |entries|, rounds);
      }
      hide Run, IsRun, Age, Oldest;
      AgesBound(n.managers, |entries|, Oldest(rounds, |entries|), |n.managers|);
    }
  }
}
