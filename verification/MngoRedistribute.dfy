/** MNGO redistribution (src/LB_comm/shmem_mngo.c): givers release cores into a pool, all managers meet in a
    barrier, and receivers take cores from it. Every order of the steps is a run. */
module MngoRedistribute {
  import opened MngoCores

  /** Where a manager is in shmem_mngo_drom__redistribute: before its release, at or past the barrier, done. */
  datatype Stage = Fresh | Released | Done

  datatype Manager = Manager(mask: Mask, delta: int, stage: Stage)

  datatype Node = Node(core: seq<nat>, pool: Mask, managers: seq<Manager>)

  /** The part before the barrier. A giver without enough cores is a fatal error; see FatalExactly. */
  function Release(n: Node, i: nat): Node
    requires i < |n.managers|
  {
    var m := n.managers[i];
    if m.delta >= 0 then n.(managers := n.managers[i := m.(stage := Released)])
    else
      var p := Peel(n.core, m.mask, {}, -m.delta);
      n.(pool := n.pool + p.taken, managers := n.managers[i := m.(mask := p.left, stage := Released)])
  }

  /** The part after the barrier; a receiver that finds too few cores keeps what there was. */
  function Receive(n: Node, i: nat): Node
    requires i < |n.managers|
  {
    var m := n.managers[i];
    if m.delta <= 0 then n.(managers := n.managers[i := m.(stage := Done)])
    else
      var p := Peel(n.core, n.pool, m.mask, m.delta);
      n.(pool := p.left, managers := n.managers[i := m.(mask := p.taken, stage := Done)])
  }

  predicate AllReleased(n: Node) {
    forall i :: 0 <= i < |n.managers| ==> !n.managers[i].stage.Fresh?
  }

  /** Whose turn it may be: any fresh manager, or, once nobody is fresh, any manager not done. */
  predicate Enabled(n: Node, i: nat) {
    i < |n.managers| &&
    match n.managers[i].stage
    case Fresh => true
    case Released => AllReleased(n)
    case Done => false
  }

  function Step(n: Node, i: nat): Node
    requires Enabled(n, i)
  {
    if n.managers[i].stage.Fresh? then Release(n, i) else Receive(n, i)
  }

  // ---------------------------------------------------------------- where CPUs are

  const POOL: int := -1
  const NOWHERE: int := -2

  /** CPU c is in the pool, or in the mask of manager h only, or nowhere. */
  ghost predicate At(n: Node, c: nat, h: int) {
    NOWHERE <= h < |n.managers| && (c in n.pool <==> h == POOL) &&
    forall i :: 0 <= i < |n.managers| ==> (c in n.managers[i].mask <==> h == i)
  }

  /** CPUs in the masks or the pool, each in one place, are exactly those of all. */
  ghost predicate Split(n: Node, all: Mask) {
    forall c: nat :: Placed(n, all, c)
  }

  ghost predicate Placed(n: Node, all: Mask, c: nat) {
    exists h :: At(n, c, h) && (c in all <==> h != NOWHERE)
  }

  lemma PlaceOf(n: Node, all: Mask, c: nat) returns (h: int)
    requires Split(n, all)
    ensures At(n, c, h) && (c in all <==> h != NOWHERE)
  {
    assert Placed(n, all, c);
    h :| At(n, c, h) && (c in all <==> h != NOWHERE);
  }

  ghost predicate AllWhole(n: Node) {
    WholeCores(n.core, n.pool) && forall i :: 0 <= i < |n.managers| ==> WholeCores(n.core, n.managers[i].mask)
  }

  // ---------------------------------------------------------------- balance

  function Part(x: int): nat {
    if x > 0 then x else 0
  }

  /** Cores that a manager has put into the pool minus those it has taken out. */
  function Share(m: Manager): int {
    (if m.stage.Fresh? then 0 else Part(-m.delta)) - (if m.stage.Done? then Part(m.delta) else 0)
  }

  function Shares(ms: seq<Manager>, n: nat): int
    requires n <= |ms|
  {
    if n == 0 then 0 else Shares(ms, n - 1) + Share(ms[n - 1])
  }

  function Deltas(ms: seq<Manager>, n: nat): int
    requires n <= |ms|
  {
    if n == 0 then 0 else Deltas(ms, n - 1) + ms[n - 1].delta
  }

  lemma {:induction false} SharesUpdate(ms: seq<Manager>, i: nat, m: Manager, n: nat)
    requires i < |ms| && n <= |ms| && m.delta == ms[i].delta
    ensures Shares(ms[i := m], n) == Shares(ms, n) + (if i < n then Share(m) - Share(ms[i]) else 0)
    ensures Deltas(ms[i := m], n) == Deltas(ms, n)
  {
    hide Share;
    if n > 0 {
      SharesUpdate(ms, i, m, n - 1);
    }
  }

  /** What is still to be taken: receivers that are not done, once everybody has released. */
  function Pending(ms: seq<Manager>, n: nat): nat
    requires n <= |ms|
  {
    if n == 0 then 0 else Pending(ms, n - 1) + (if ms[n - 1].stage.Done? then 0 else Part(ms[n - 1].delta))
  }

  lemma {:induction false} SharesArePending(ms: seq<Manager>, n: nat)
    requires n <= |ms| && forall i :: 0 <= i < n ==> !ms[i].stage.Fresh?
    ensures Shares(ms, n) == Pending(ms, n) - Deltas(ms, n)
  {
    if n > 0 {
      SharesArePending(ms, n - 1);
    }
  }

  lemma {:induction false} PendingCovers(ms: seq<Manager>, i: nat, n: nat)
    requires i < n <= |ms| && !ms[i].stage.Done?
    ensures Part(ms[i].delta) <= Pending(ms, n)
  {
    hide Part;
    if i < n - 1 {
      PendingCovers(ms, i, n - 1);
    }
  }

  lemma {:induction false} NothingPending(ms: seq<Manager>, n: nat)
    requires n <= |ms| && forall i :: 0 <= i < n ==> ms[i].stage.Done?
    ensures Pending(ms, n) == 0
  {
    if n > 0 {
      NothingPending(ms, n - 1);
    }
  }

  // ---------------------------------------------------------------- invariant

  /** The number of cores a manager has at its stage, having started with before. */
  ghost predicate OnTrack(core: seq<nat>, m: Manager, before: nat) {
    Count(core, m.mask) == before - (if m.stage.Fresh? then 0 else Part(-m.delta)) + (if m.stage.Done? then Part(m.delta) else 0)
  }

  ghost predicate EnoughToGive(m: Manager, before: nat) {
    Part(-m.delta) <= before
  }

  ghost predicate StagesOk(n: Node) {
    (exists i :: 0 <= i < |n.managers| && n.managers[i].stage.Done?) ==> AllReleased(n)
  }

  /** all are the CPUs handed around, before the number of cores each manager started with. */
  ghost predicate Inv(n: Node, all: Mask, before: seq<nat>) {
    && |before| == |n.managers| && AllWhole(n) && Split(n, all) && StagesOk(n)
    && (forall i :: 0 <= i < |before| ==> OnTrack(n.core, n.managers[i], before[i]) && EnoughToGive(n.managers[i], before[i]))
    && Deltas(n.managers, |n.managers|) == 0
    && Count(n.core, n.pool) == Shares(n.managers, |n.managers|)
  }

  // ---------------------------------------------------------------- steps

  lemma MaskApart(n: Node, all: Mask, i: nat)
    requires Split(n, all) && i < |n.managers|
    ensures n.pool !! n.managers[i].mask
  {
    forall c | c in n.pool ensures c !in n.managers[i].mask {
      var h := PlaceOf(n, all, c);
    }
  }

  /** CPUs that move between a mask and the pool stay in one place. */
  lemma MoveKeepsSplit(n: Node, t: Node, all: Mask, i: nat)
    requires Split(n, all) && i < |n.managers| == |t.managers|
    requires forall j :: 0 <= j < |n.managers| && j != i ==> t.managers[j].mask == n.managers[j].mask
    requires t.pool !! t.managers[i].mask && t.pool + t.managers[i].mask == n.pool + n.managers[i].mask
    ensures Split(t, all)
  {
    forall c: nat ensures Placed(t, all, c) {
      var h := PlaceOf(n, all, c);
      assert c in t.pool + t.managers[i].mask <==> c in n.pool + n.managers[i].mask;
      var g := if c in t.pool then POOL else if c in t.managers[i].mask then i else h;
      assert At(t, c, g);
    }
  }

  lemma StageOnly(n: Node, all: Mask, i: nat, stage: Stage)
    requires Split(n, all) && AllWhole(n) && i < |n.managers|
    ensures var t := n.(managers := n.managers[i := n.managers[i].(stage := stage)]); Split(t, all) && AllWhole(t)
  {
    var t := n.(managers := n.managers[i := n.managers[i].(stage := stage)]);
    MaskApart(n, all, i);
    MoveKeepsSplit(n, t, all, i);
  }

  lemma Rejoin(pool: Mask, mask: Mask, taken: Mask, left: Mask)
    requires pool !! mask && taken !! left && taken + left == mask
    ensures pool !! taken && pool + taken !! left && (pool + taken) + left == pool + mask
  {
  }

  lemma ReleaseSplits(n: Node, all: Mask, i: nat, taken: Mask, left: Mask)
    requires Split(n, all) && i < |n.managers| && taken !! left && taken + left == n.managers[i].mask
    ensures n.pool !! taken
    ensures Split(n.(pool := n.pool + taken, managers := n.managers[i := n.managers[i].(mask := left, stage := Released)]), all)
  {
    hide Split;
    var t := n.(pool := n.pool + taken, managers := n.managers[i := n.managers[i].(mask := left, stage := Released)]);
    MaskApart(n, all, i);
    Rejoin(n.pool, n.managers[i].mask, taken, left);
    MoveKeepsSplit(n, t, all, i);
  }

  lemma ReleaseCores(n: Node, all: Mask, i: nat)
    requires Split(n, all) && AllWhole(n) && i < |n.managers| && n.managers[i].delta < 0
    requires -n.managers[i].delta <= Count(n.core, n.managers[i].mask)
    ensures var t := Release(n, i); var k := -n.managers[i].delta;
      && Split(t, all) && AllWhole(t) && t.core == n.core
      && Count(n.core, t.pool) == Count(n.core, n.pool) + k
      && Count(n.core, t.managers[i].mask) == Count(n.core, n.managers[i].mask) - k
  {
    hide Peel, WholeCores, Count, CoresOf, Split;
    var m := n.managers[i];
    PeelFromScratch(n.core, m.mask, -m.delta);
    var p := Peel(n.core, m.mask, {}, -m.delta);
    ReleaseSplits(n, all, i, p.taken, p.left);
    CountAdds(n.core, n.pool, p.taken);
  }

  lemma ReceiveCores(n: Node, all: Mask, i: nat)
    requires Split(n, all) && AllWhole(n) && i < |n.managers| && n.managers[i].delta > 0
    requires n.managers[i].delta <= Count(n.core, n.pool)
    ensures var t := Receive(n, i); var k := n.managers[i].delta;
      && Split(t, all) && AllWhole(t) && t.core == n.core
      && Count(n.core, t.pool) == Count(n.core, n.pool) - k
      && Count(n.core, t.managers[i].mask) == Count(n.core, n.managers[i].mask) + k
  {
    var m := n.managers[i];
    hide Peel, WholeCores, Count, CoresOf, Split;
    MaskApart(n, all, i);
    PeelSplits(n.core, n.pool, m.mask, m.delta);
    MoveKeepsSplit(n, Receive(n, i), all, i);
  }

  lemma ReleaseKeeps(n: Node, all: Mask, before: seq<nat>, i: nat)
    requires Inv(n, all, before) && i < |n.managers| && n.managers[i].stage.Fresh?
    ensures Inv(Release(n, i), all, before)
  {
    var m := n.managers[i];
    var t := Release(n, i);
    hide Split, AllWhole, Count, Peel, Shares, Deltas;
    assert OnTrack(n.core, m, before[i]) && EnoughToGive(m, before[i]);
    if m.delta >= 0 {
      StageOnly(n, all, i, Released);
    } else {
      ReleaseCores(n, all, i);
    }
    SharesUpdate(n.managers, i, t.managers[i], |n.managers|);
    assert !AllReleased(n);
  }

  lemma ReceiveKeeps(n: Node, all: Mask, before: seq<nat>, i: nat)
    requires Inv(n, all, before) && i < |n.managers| && n.managers[i].stage.Released? && AllReleased(n)
    ensures Inv(Receive(n, i), all, before)
  {
    var m := n.managers[i];
    var t := Receive(n, i);
    hide Split, AllWhole, Count, Peel, Shares, Deltas, Pending;
    assert OnTrack(n.core, m, before[i]) && EnoughToGive(m, before[i]);
    SharesArePending(n.managers, |n.managers|);
    PendingCovers(n.managers, i, |n.managers|);
    if m.delta <= 0 {
      StageOnly(n, all, i, Done);
    } else {
      ReceiveCores(n, all, i);
    }
    SharesUpdate(n.managers, i, t.managers[i], |n.managers|);
  }

  lemma StepKeeps(n: Node, all: Mask, before: seq<nat>, i: nat)
    requires Inv(n, all, before) && Enabled(n, i)
    ensures Inv(Step(n, i), all, before)
  {
    hide Inv, Release, Receive;
    if n.managers[i].stage.Fresh? {
      ReleaseKeeps(n, all, before, i);
    } else {
      ReceiveKeeps(n, all, before, i);
    }
  }

  // ---------------------------------------------------------------- runs

  ghost predicate IsRun(n: Node, order: seq<nat>)
    decreases |order|
  {
    order == [] || (Enabled(n, order[0]) && IsRun(Step(n, order[0]), order[1..]))
  }

  function Run(n: Node, order: seq<nat>): Node
    decreases |order|
  {
    if order == [] || !Enabled(n, order[0]) then n else Run(Step(n, order[0]), order[1..])
  }

  lemma {:induction false} RunKeeps(n: Node, order: seq<nat>, all: Mask, before: seq<nat>)
    requires Inv(n, all, before) && IsRun(n, order)
    ensures Inv(Run(n, order), all, before)
    decreases |order|
  {
    hide Inv, Step, Enabled;
    if order != [] {
      StepKeeps(n, all, before, order[0]);
      RunKeeps(Step(n, order[0]), order[1..], all, before);
    }
  }

  /** What a redistribution starts from: an empty pool, disjoint masks of whole cores, deltas that add up to
      zero and givers that have enough cores. */
  ghost predicate Ready(n: Node, all: Mask) {
    && n.pool == {} && AllWhole(n) && Split(n, all)
    && Deltas(n.managers, |n.managers|) == 0
    && forall i :: 0 <= i < |n.managers| ==>
      n.managers[i].stage.Fresh? && -n.managers[i].delta <= Count(n.core, n.managers[i].mask)
  }

  function CountsOf(n: Node): (r: seq<nat>)
    ensures |r| == |n.managers| && forall i :: 0 <= i < |r| ==> r[i] == Count(n.core, n.managers[i].mask)
  {
    seq(|n.managers|, i requires 0 <= i < |n.managers| => Count(n.core, n.managers[i].mask))
  }

  lemma {:induction false} NoSharesYet(ms: seq<Manager>, n: nat)
    requires n <= |ms| && forall i :: 0 <= i < n ==> ms[i].stage.Fresh?
    ensures Shares(ms, n) == 0
  {
    if n > 0 {
      NoSharesYet(ms, n - 1);
    }
  }

  lemma ReadyStarts(n: Node, all: Mask)
    requires Ready(n, all)
    ensures Inv(n, all, CountsOf(n))
  {
    NoSharesYet(n.managers, |n.managers|);
    NoCores(n.core, {});
    hide Count, Split, Shares, Deltas, CountsOf;
  }

  /** Whatever order givers and then receivers run in, the redistribution ends with an empty pool, every CPU in
      exactly one of the masks, whole cores, and each manager with exactly delta cores more. */
  lemma RedistributionIsExact(n: Node, order: seq<nat>, all: Mask)
    requires Ready(n, all) && IsRun(n, order)
    requires var t := Run(n, order); forall i :: 0 <= i < |t.managers| ==> t.managers[i].stage.Done?
    ensures var t := Run(n, order);
      && t.pool == {} && Split(t, all) && AllWhole(t) && |t.managers| == |n.managers|
      && forall i :: 0 <= i < |n.managers| ==>
        Count(n.core, t.managers[i].mask) == Count(n.core, n.managers[i].mask) + n.managers[i].delta
  {
    var before := CountsOf(n);
    ReadyStarts(n, all);
    RunKeeps(n, order, all, before);
    SameManagers(n, order);
    var t := Run(n, order);
    hide IsRun, Run, Split, Count, CountsOf, Shares, Deltas, Pending;
    SharesArePending(t.managers, |t.managers|);
    NothingPending(t.managers, |t.managers|);
    NoCores(t.core, t.pool);
    forall i | 0 <= i < |n.managers|
      ensures Count(n.core, t.managers[i].mask) == Count(n.core, n.managers[i].mask) + n.managers[i].delta
    {
      assert OnTrack(t.core, t.managers[i], before[i]);
    }
  }

  lemma {:induction false} SameManagers(n: Node, order: seq<nat>)
    requires IsRun(n, order)
    ensures var t := Run(n, order);
      && t.core == n.core && |t.managers| == |n.managers|
      && forall i :: 0 <= i < |n.managers| ==> t.managers[i].delta == n.managers[i].delta
    decreases |order|
  {
    hide Peel;
    if order != [] {
      SameManagers(Step(n, order[0]), order[1..]);
    }
  }

  /** No order gets stuck: until every manager is done, some manager can move. */
  lemma NeverStuck(n: Node, i: nat) returns (j: nat)
    requires i < |n.managers| && !n.managers[i].stage.Done?
    ensures Enabled(n, j)
  {
    if AllReleased(n) {
      j := i;
    } else {
      j :| 0 <= j < |n.managers| && n.managers[j].stage.Fresh?;
    }
  }

  // ---------------------------------------------------------------- progress

  function StepsOf(stage: Stage): nat {
    match stage
    case Fresh => 2
    case Released => 1
    case Done => 0
  }

  /** The steps that the first n managers still have to make. */
  function StepsLeft(ms: seq<Manager>, n: nat): nat
    requires n <= |ms|
  {
    if n == 0 then 0 else StepsLeft(ms, n - 1) + StepsOf(ms[n - 1].stage)
  }

  lemma {:induction false} StepsLeftUpdate(ms: seq<Manager>, i: nat, m: Manager, n: nat)
    requires i < |ms| && n <= |ms|
    ensures StepsLeft(ms[i := m], n) == StepsLeft(ms, n) + (if i < n then StepsOf(m.stage) - StepsOf(ms[i].stage) else 0)
  {
    hide StepsOf;
    if n > 0 {
      StepsLeftUpdate(ms, i, m, n - 1);
    }
  }

  lemma {:induction false} StepsLeftBounds(ms: seq<Manager>, n: nat)
    requires n <= |ms|
    ensures StepsLeft(ms, n) <= 2 * n
    ensures StepsLeft(ms, n) == 2 * n <==> forall i :: 0 <= i < n ==> ms[i].stage.Fresh?
    ensures StepsLeft(ms, n) == 0 <==> forall i :: 0 <= i < n ==> ms[i].stage.Done?
  {
    if n > 0 {
      StepsLeftBounds(ms, n - 1);
    }
  }

  /** Every step of a run is one step less to make. */
  lemma {:induction false} RunAdvances(n: Node, order: seq<nat>)
    requires IsRun(n, order)
    ensures var t := Run(n, order);
      StepsLeft(t.managers, |t.managers|) == StepsLeft(n.managers, |n.managers|) - |order|
    decreases |order|
  {
    if order != [] {
      var t := Step(n, order[0]);
      StepsLeftUpdate(n.managers, order[0], t.managers[order[0]], |n.managers|);
      assert t.managers == n.managers[order[0] := t.managers[order[0]]];
      hide Step, StepsLeft;
      RunAdvances(t, order[1..]);
    }
  }

  /** So a redistribution always ends: no order is longer than two steps a manager, and those of that length, and no
      others, leave every manager done. */
  lemma RunCompletes(n: Node, order: seq<nat>)
    requires IsRun(n, order) && forall i :: 0 <= i < |n.managers| ==> n.managers[i].stage.Fresh?
    ensures |order| <= 2 * |n.managers|
    ensures var t := Run(n, order);
      |order| == 2 * |n.managers| <==> forall i :: 0 <= i < |t.managers| ==> t.managers[i].stage.Done?
  {
    RunAdvances(n, order);
    StepsLeftBounds(n.managers, |n.managers|);
    StepsLeftBounds(Run(n, order).managers, |Run(n, order).managers|);
    hide IsRun, Run;
  }

  /** A giver runs out of cores, which is fatal, exactly when it is asked for more than it has. */
  lemma FatalExactly(n: Node, i: nat)
    requires i < |n.managers| && WholeCores(n.core, n.managers[i].mask) && n.managers[i].delta < 0
    ensures Peel(n.core, n.managers[i].mask, {}, -n.managers[i].delta).missing > 0 <==>
      -n.managers[i].delta > Count(n.core, n.managers[i].mask)
  {
    hide Peel, WholeCores, Count;
    PeelFromScratch(n.core, n.managers[i].mask, -n.managers[i].delta);
  }
}
