/** DROM process table (src/LB_comm/shmem_procinfo.c): every operation as a function from the
    shared memory it finds, under the lock, to the shared memory it leaves. */
module ProcinfoSpec {
  import opened Codes

  type Mask = set<nat>

  /** pinfo_t, without its usage statistics. */
  datatype Proc = Proc(pid: nat, dirty: bool, prereg: bool, current: Mask, future: Mask, stolen: Mask)

  const EMPTY := Proc(NOBODY, false, false, {}, {}, {})

  /** shdata_t. The system mask and the size of the node never change; every system CPU is below
      the size, and masks given by callers may hold CPUs outside both. */
  datatype Shared = Shared(system: Mask, size: nat, sharing: bool, free: Mask, num: nat, procs: seq<Proc>)

  predicate SameShape(s: Shared, t: Shared) {
    t.system == s.system && t.size == s.size && t.sharing == s.sharing && t.num == s.num && |t.procs| == |s.procs|
  }

  function InRange(mask: Mask, size: nat): Mask {
    set c | c in mask && c < size
  }

  // ---------------------------------------------------------------- register and steal

  function Assigned(p: Proc, mask: Mask): Proc {
    p.(dirty := true, future := p.future + mask, stolen := p.stolen - mask)
  }

  /** register_mask */
  function Register(s: Shared, owner: nat, mask: Mask): (r: (Shared, Code))
    requires owner < |s.procs|
    ensures SameShape(s, r.0)
  {
    if mask == {} || s.sharing then (s, Success)
    else if mask <= s.free then
      (s.(free := s.free - mask, procs := s.procs[owner := Assigned(s.procs[owner], mask)]), Success)
    else (s, ErrPerm)
  }

  predicate IsVictim(p: Proc, mask: Mask) {
    p.pid != NOBODY && p.current * mask != {}
  }

  function Robbed(p: Proc, mask: Mask): Proc {
    p.(dirty := true, future := p.current - p.current * mask, stolen := p.stolen + p.current * mask)
  }

  datatype Scan = Scan(procs: seq<Proc>, left: Mask, code: Code)

  /** The victim loop of steal_mask from process p on, with left still to be found. */
  function StealScan(procs: seq<Proc>, num: nat, owner: nat, mask: Mask, dry: bool, p: nat, left: Mask): (r: Scan)
    requires p <= num <= |procs|
    ensures |r.procs| == |procs|
    decreases num - p
  {
    if p == num then Scan(procs, left, Success)
    else if p == owner || !IsVictim(procs[p], mask) then StealScan(procs, num, owner, mask, dry, p + 1, left)
    else if procs[p].dirty then Scan(procs, left, ErrPerm)
    else
      var next := if dry then procs else procs[p := Robbed(procs[p], mask)];
      var rest := left - procs[p].current * mask;
      if rest == {} then Scan(next, rest, Success)
      else StealScan(next, num, owner, mask, dry, p + 1, rest)
  }

  /** The roll-back loop of steal_mask, on one victim. */
  function Restored(p: Proc, mask: Mask): Proc {
    var back := p.stolen * mask;
    if p.pid == NOBODY || back == {} then p
    else p.(future := p.future + back, stolen := p.stolen - back, dirty := p.current != p.future + back)
  }

  function RolledBack(procs: seq<Proc>, num: nat, owner: nat, mask: Mask): seq<Proc> {
    seq(|procs|, i requires 0 <= i < |procs| => if i < num && i != owner then Restored(procs[i], mask) else procs[i])
  }

  /** steal_mask without the synchronous wait */
  function Steal(s: Shared, owner: nat, mask: Mask, dry: bool): (r: (Shared, Code))
    requires owner < |s.procs| && s.num <= |s.procs|
    ensures SameShape(s, r.0)
  {
    if mask == {} then (s, Success)
    else
      var r := StealScan(s.procs, s.num, owner, mask, dry, 0, mask);
      var code := if r.code == Success && r.left != {} then ErrPerm else r.code;
      if dry then (s, code)
      else if code == Success then
        (s.(procs := r.procs[owner := Assigned(r.procs[owner], mask)]), Success)
      else
        (s.(procs := RolledBack(r.procs, s.num, owner, mask)), code)
  }

  // ---------------------------------------------------------------- unregister

  /** The first live process below num, from p on, that lost CPU c; num when there is none. */
  function Receiver(procs: seq<Proc>, num: nat, c: nat, p: nat := 0): (r: nat)
    requires p <= num <= |procs|
    ensures p <= r <= num
    ensures r < num ==> procs[r].pid != NOBODY && c in procs[r].stolen
    ensures forall i :: p <= i < r ==> procs[i].pid == NOBODY || c !in procs[i].stolen
    decreases num - p
  {
    if p == num then num
    else if procs[p].pid != NOBODY && c in procs[p].stolen then p
    else Receiver(procs, num, c, p + 1)
  }

  /** One CPU of unregister_mask in return mode: back to the process it was stolen from. */
  function GiveBack(s: Shared, owner: nat, c: nat): (t: Shared)
    requires owner < |s.procs| && s.num <= |s.procs|
    ensures SameShape(s, t)
  {
    var r := Receiver(s.procs, s.num, c);
    var procs := if r == s.num then s.procs else
      s.procs[r := s.procs[r].(dirty := true, future := s.procs[r].future + {c}, stolen := s.procs[r].stolen - {c})];
    s.(free := if r == s.num then s.free + {c} else s.free,
       procs := procs[owner := procs[owner].(dirty := true, future := procs[owner].future - {c})])
  }

  function GiveBackFrom(s: Shared, owner: nat, mask: Mask, c: nat): (t: Shared)
    requires owner < |s.procs| && s.num <= |s.procs|
    ensures SameShape(s, t)
    decreases s.size - c
  {
    if c >= s.size then s
    else GiveBackFrom(if c in mask then GiveBack(s, owner, c) else s, owner, mask, c + 1)
  }

  /** unregister_mask */
  function Unregister(s: Shared, owner: nat, mask: Mask, returnStolen: bool): (t: Shared)
    requires owner < |s.procs| && s.num <= |s.procs|
    ensures SameShape(s, t)
  {
    if mask == {} || s.sharing then s
    else if returnStolen then GiveBackFrom(s, owner, mask, 0)
    else
      var p := s.procs[owner];
      s.(free := s.free + mask, procs := s.procs[owner := p.(dirty := true, future := p.future - mask)])
  }

  // ---------------------------------------------------------------- set_new_mask

  function ToAcquire(s: Shared, mask: Mask): Mask {
    InRange(mask * s.free, s.size)
  }

  function ToSteal(s: Shared, i: nat, mask: Mask): Mask
    requires i < |s.procs|
  {
    InRange(mask - s.free - s.procs[i].current, s.size)
  }

  function ToFree(s: Shared, i: nat, mask: Mask): Mask
    requires i < |s.procs|
  {
    InRange(s.procs[i].current - mask, s.size)
  }

  /** set_new_mask: dry steal, steal, register, unregister; each only if the one before went well. */
  function SetNewMask(s: Shared, i: nat, mask: Mask, returnStolen: bool): (r: (Shared, Code))
    requires i < |s.procs| && s.num <= |s.procs|
    ensures SameShape(s, r.0)
  {
    if s.sharing then (s, ErrNoComp)
    else
      var (_, dry) := Steal(s, i, ToSteal(s, i, mask), true);
      if dry != Success then (s, dry)
      else
        var (t, stole) := Steal(s, i, ToSteal(s, i, mask), false);
        if stole != Success then (t, stole)
        else
          var (u, got) := Register(t, i, ToAcquire(s, mask));
          if got != Success then (u, got)
          else (Unregister(u, i, ToFree(s, i, mask), returnStolen), Success)
  }

  function Committed(p: Proc): Proc {
    p.(current := p.future, dirty := false)
  }

  /** shmem_procinfo__setprocessmask on another process, without DLB_SYNC_QUERY */
  function SetMask(s: Shared, i: nat, mask: Mask, returnStolen: bool): (Shared, Code)
    requires i < |s.procs| && s.num <= |s.procs|
  {
    if s.procs[i].pid == NOBODY then (s, ErrNoProc)
    else if s.procs[i].dirty then (s, ErrPDirty)
    else SetNewMask(s, i, mask, returnStolen)
  }

  /** shmem_procinfo__setprocessmask_self */
  function SetMaskSelf(s: Shared, i: nat, mask: Mask, returnStolen: bool, noSync: bool): (Shared, Code)
    requires i < |s.procs| && s.num <= |s.procs|
  {
    if s.procs[i].pid == NOBODY then (s, ErrNoProc)
    else if s.procs[i].dirty && mask != s.procs[i].future then (s, ErrPDirty)
    else
      var (t, code) := SetNewMask(s, i, mask, returnStolen);
      if code == Success && !noSync then
        (t.(procs := t.procs[i := Committed(t.procs[i])]), code)
      else (t, code)
  }

  /** shmem_procinfo__polldrom and shmem_procinfo__getprocessmask_self differ in their codes:
      updated is returned after an update, idle when there was nothing new. */
  function Poll(s: Shared, i: nat, updated: Code, idle: Code): (Shared, Code, Mask)
    requires i < |s.procs|
  {
    if s.procs[i].pid == NOBODY then (s, ErrNoProc, {})
    else if s.procs[i].dirty then
      (s.(procs := s.procs[i := Committed(s.procs[i])]), updated, s.procs[i].future)
    else (s, idle, s.procs[i].current)
  }

  /** shmem_procinfo_ext__recover_stolen_cpus */
  function Recover(s: Shared, i: nat): (Shared, Code)
    requires i < |s.procs|
  {
    if s.procs[i].pid == NOBODY then (s, ErrNoProc)
    else if s.procs[i].stolen == {} then (s, NoUpdt)
    else
      var found := s.procs[i].stolen * s.free;
      var (t, code) := Register(s, i, found);
      if code == Success then
        (t.(procs := t.procs[i := t.procs[i].(stolen := t.procs[i].stolen - found)]), code)
      else (t, code)
  }

  /** shmem_procinfo__finalize and shmem_procinfo_ext__postfinalize */
  function Finalize(s: Shared, i: nat, returnStolen: bool): (Shared, Code)
    requires i < |s.procs| && s.num <= |s.procs|
  {
    if s.procs[i].pid == NOBODY then (s, ErrNoProc)
    else
      var p := s.procs[i];
      var t := Unregister(s, i, if p.dirty then p.future else p.current, returnStolen);
      (t.(procs := t.procs[i := EMPTY]), Success)
  }

  // ---------------------------------------------------------------- pre-registration

  /** The first slot that is free or already holds pid. */
  function PreinitSlot(procs: seq<Proc>, pid: nat, p: nat := 0): (r: nat)
    requires p <= |procs|
    ensures p <= r <= |procs|
    ensures r < |procs| ==> procs[r].pid == NOBODY || procs[r].pid == pid
    ensures forall i :: p <= i < r ==> procs[i].pid != NOBODY && procs[i].pid != pid
    decreases |procs| - p
  {
    if p == |procs| || procs[p].pid == pid || procs[p].pid == NOBODY then p
    else PreinitSlot(procs, pid, p + 1)
  }

  /** The two ways of filling a pre-registered slot. */
  function Claim(s: Shared, p: nat, mask: Mask, steal: bool, returnStolen: bool): (r: (Shared, Code))
    requires p < |s.procs| && s.num <= |s.procs|
    ensures SameShape(s, r.0)
  {
    if steal then SetNewMask(s, p, mask, returnStolen) else Register(s, p, mask)
  }

  /** shmem_procinfo_ext__preinit */
  function Preinit(s: Shared, pid: nat, mask: Mask, steal: bool, returnStolen: bool): (r: (Shared, Code))
    requires s.num <= |s.procs|
    ensures |r.0.procs| == |s.procs| && r.0.num <= |r.0.procs|
  {
    var p := PreinitSlot(s.procs, pid);
    if p == |s.procs| then (s, ErrNoMem)
    else if s.procs[p].pid == pid then (s, ErrInit)
    else
      var s1 := s.(procs := s.procs[p := EMPTY.(pid := pid, prereg := true)]);
      var (t, code) := Claim(s1, p, mask, steal, returnStolen);
      if code != Success then (t.(procs := t.procs[p := t.procs[p].(pid := NOBODY)]), code)
      else (t.(num := if p == t.num then t.num + 1 else t.num,
               procs := t.procs[p := t.procs[p].(dirty := false, current := mask, future := mask)]), code)
  }

  // ---------------------------------------------------------------- registration

  /** What the scan of shmem_procinfo__init_ found: the first free slot (num when none was met), the
      pre-registered slot (num when absent), or an error. */
  datatype Found = Found(spot: nat, pre: nat) | Clash

  predicate SpotOk(procs: seq<Proc>, num: nat, spot: nat) {
    spot <= num <= |procs| && (spot < num ==> procs[spot].pid == NOBODY)
  }

  predicate PreOk(procs: seq<Proc>, num: nat, prePid: nat, pre: nat) {
    pre <= num <= |procs| &&
    (pre < num ==> prePid != NOBODY && procs[pre].pid == prePid && procs[pre].prereg)
  }

  function InitScan(procs: seq<Proc>, num: nat, pid: nat, prePid: nat, p: nat, spot: nat, pre: nat): (r: Found)
    requires p <= num <= |procs| && SpotOk(procs, num, spot) && PreOk(procs, num, prePid, pre)
    ensures r.Found? ==> SpotOk(procs, num, r.spot) && PreOk(procs, num, prePid, r.pre)
    decreases num - p
  {
    if p == num then Found(spot, pre)
    else
      var q := procs[p].pid;
      if spot == num && q == NOBODY then
        if prePid == 0 || pre < num then Found(p, pre)
        else InitScan(procs, num, pid, prePid, p + 1, p, pre)
      else if prePid != 0 && pre == num && q == prePid then
        if !procs[p].prereg then Clash
        else if spot < num then Found(spot, p)
        else InitScan(procs, num, pid, prePid, p + 1, spot, p)
      else if q == pid then Clash
      else InitScan(procs, num, pid, prePid, p + 1, spot, pre)
  }

  /** Register CPUs for a placeholder process that is then thrown away: only the free mask changes. */
  function Placeholder(s: Shared, mask: Mask): (Shared, Code) {
    if mask == {} || s.sharing then (s, Success)
    else if mask <= s.free then (s.(free := s.free - mask), Success)
    else (s, ErrPerm)
  }

  /** A new process in slot e. */
  function FreshInit(s: Shared, e: nat, pid: nat, mask: Mask): (r: (Shared, Code))
    requires e < |s.procs|
    ensures SameShape(s, r.0)
  {
    var s1 := s.(procs := s.procs[e := EMPTY.(pid := pid)]);
    var (t, code) := Register(s1, e, mask);
    if code == Success then
      (t.(procs := t.procs[e := t.procs[e].(dirty := false, current := mask, future := mask)]), code)
    else (t.(procs := t.procs[e := t.procs[e].(pid := NOBODY)]), code)
  }

  function PreMask(p: Proc): Mask {
    if p.dirty then p.future else p.current
  }

  /** The four inheritance cases from the pre-registered slot i; e is the spot for a new process,
      |procs| when there is none. The last component is the slot of the process. */
  function Inherit(s: Shared, i: nat, e: nat, pid: nat, mask: Mask): (r: (Shared, Code, nat))
    requires i < |s.procs| && e <= |s.procs| && i != e
    ensures SameShape(s, r.0) && (r.1 == Noted ==> r.2 < |s.procs|)
  {
    var pre := s.procs[i];
    var had := PreMask(pre);
    if mask == {} || mask == had then
      (s.(procs := s.procs[i := pre.(pid := pid, prereg := false)]), Noted, i)
    else if had < mask then
      if pre.dirty then (s, ErrPDirty, i)
      else
        var (t, code) := Placeholder(s, mask - had);
        if code != Success then (s, ErrPerm, i)
        else (t.(procs := s.procs[i := pre.(pid := pid, prereg := false, current := mask, future := mask)]), Noted, i)
    else if pre.dirty then (s, ErrPDirty, e)
    else if e == |s.procs| then (s, ErrNoMem, e)
    else if mask < had then
      (s.(procs := s.procs[e := EMPTY.(pid := pid, current := mask, future := mask)]
                          [i := Shrunk(pre, mask)]), Noted, e)
    else
      var (t, code) := Placeholder(s, mask - had);
      if code != Success then (s, ErrPerm, e)
      else (t.(procs := s.procs[e := s.procs[e].(pid := pid, prereg := false, current := mask, future := mask)]
                               [i := Shrunk(pre, mask)]), Noted, e)
  }

  function Shrunk(p: Proc, mask: Mask): Proc {
    p.(current := p.current - mask, future := p.future - mask)
  }

  /** shmem_procinfo__init_ once the memory is open, with the sharing mode already agreed. */
  function Init(s: Shared, pid: nat, prePid: nat, mask: Mask, sharing: bool): (Shared, Code)
    requires s.num <= |s.procs|
  {
    if s.sharing != sharing then (s, ErrNoComp)
    else
      match InitScan(s.procs, s.num, pid, prePid, 0, s.num, s.num)
      case Clash => (s, ErrInit)
      case Found(spot, pre) =>
        if pre >= s.num then
          if spot == |s.procs| then (s, ErrNoMem)
          else
            var (t, code) := FreshInit(s, spot, pid, mask);
            (t.(num := if spot == s.num then s.num + 1 else s.num), code)
        else
          var (t, code, slot) := Inherit(s, pre, spot, pid, mask);
          (t.(num := if code == Noted && slot == s.num then s.num + 1 else s.num), code)
  }
}
