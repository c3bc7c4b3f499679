/** The CPU table, updated in place under its lock (src/LB_comm/shmem_cpuinfo.c). */
module Cpuinfo {
  import opened Codes
  import opened CpuinfoSpec
  import opened CpuinfoOps

  class CpuTable {
    const coreId: seq<nat>
    const hwHasSmt: bool
    var queuesEnabled: bool
    var nodeInfo: seq<Cpu>
    var freeCpus: set<nat>
    var occupiedCores: set<nat>
    var maskRequests: seq<Petition>
    var tasks: seq<Task>

    function View(): State
      reads this
    {
      State(coreId, hwHasSmt, queuesEnabled, nodeInfo, freeCpus, occupiedCores, maskRequests, tasks)
    }

    predicate Valid()
      reads this
    {
      |coreId| == |nodeInfo|
    }

    /** init_shmem, before the request queues are enabled */
    constructor (core: seq<nat>, smt: bool, respectCpuset: bool)
      ensures Valid() && View() == Start(core, smt, respectCpuset)
    {
      coreId, hwHasSmt, queuesEnabled := core, smt, false;
      nodeInfo := seq(|core|, _ => Cpu(NOBODY, NOBODY, if respectCpuset then CpuState.Disabled else CpuState.Lent, []));
      freeCpus := if respectCpuset then {} else AllCpus(|core|);
      occupiedCores, maskRequests, tasks := {}, [], [];
    }

    /** shmem_cpuinfo__enable_request_queues */
    method EnableRequestQueues()
      modifies `queuesEnabled
      ensures View() == old(View()).(queues := true)
    {
      queuesEnabled := true;
    }

    // -------------------------------------------------------------- core queries

    method CoreIsEligible(pid: Pid, c: nat) returns (r: bool)
      requires Has(View(), c)
      ensures r == CpuinfoSpec.CoreIsEligible(View(), pid, c)
    {
      if !hwHasSmt {
        return nodeInfo[c].owner == pid || nodeInfo[c].guest == pid || nodeInfo[c].guest == NOBODY;
      }
      for d := 0 to |nodeInfo|
        invariant forall e :: 0 <= e < d && SameCore(coreId, c, e) ==> Admits(nodeInfo[e], pid)
      {
        if coreId[d] == coreId[c] {
          var cpu := nodeInfo[d];
          if (cpu.guest != pid && cpu.guest != NOBODY) || (cpu.state == Busy && cpu.owner != pid) {
            assert SameCore(coreId, c, d) && !Admits(cpu, pid);
            return false;
          }
        }
      }
      r := true;
    }

    method CoreIsOccupied(owner: nat, c: nat) returns (r: bool)
      requires Has(View(), c)
      ensures r == CpuinfoSpec.CoreIsOccupied(View(), owner, c)
    {
      if owner == NOBODY { return false; }
      if !hwHasSmt {
        return nodeInfo[c].guest != NOBODY && nodeInfo[c].guest != owner;
      }
      for d := 0 to |nodeInfo|
        invariant forall e :: 0 <= e < d && SameCore(coreId, c, e) ==> !Occupied(nodeInfo[e], owner)
      {
        if coreId[d] == coreId[c] && nodeInfo[d].guest != NOBODY && nodeInfo[d].guest != owner {
          assert SameCore(coreId, c, d) && Occupied(nodeInfo[d], owner);
          return true;
        }
      }
      r := false;
    }

    method UpdateOccupiedCores(owner: nat, c: nat)
      requires Has(View(), c)
      modifies `occupiedCores
      ensures View() == UpdateOccupied(old(View()), owner, c)
    {
      hide CpuinfoSpec.CoreIsOccupied;
      var occupied := nodeInfo[c].guest != NOBODY && owner != NOBODY && nodeInfo[c].guest != owner;
      if hwHasSmt {
        if occupied {
          if c !in occupiedCores {
            occupiedCores := occupiedCores + CoreMask(View(), c);
          }
        } else if c in occupiedCores {
          var any := CoreIsOccupied(owner, c);
          if any {
            occupiedCores := occupiedCores + CoreMask(View(), c);
          } else {
            occupiedCores := occupiedCores - CoreMask(View(), c);
          }
        }
      } else if occupied {
        occupiedCores := occupiedCores + {c};
      } else {
        occupiedCores := occupiedCores - {c};
      }
    }

    method FindNewGuest(c: nat) returns (guest: nat)
      requires Has(View(), c)
      modifies `nodeInfo, `maskRequests
      ensures (guest, View()) == CpuinfoSpec.FindNewGuest(old(View()), c)
    {
      hide CpuinfoSpec.CoreIsEligible;
      var cpu := nodeInfo[c];
      if cpu.state == Busy { return cpu.owner; }
      if !queuesEnabled { return NOBODY; }
      var i := 0;
      while i < |cpu.requests|
        invariant i <= |cpu.requests| && View() == old(View()) && nodeInfo[c] == cpu
        invariant FirstRequest(View(), c, 0) == FirstRequest(View(), c, i)
      {
        var eligible := CoreIsEligible(cpu.requests[i], c);
        if eligible {
          nodeInfo := nodeInfo[c := cpu.(requests := cpu.requests[..i] + cpu.requests[i + 1..])];
          return cpu.requests[i];
        }
        i := i + 1;
      }
      var j := 0;
      while j < |maskRequests|
        invariant j <= |maskRequests| && View() == old(View()) && nodeInfo[c] == cpu
        invariant FirstPetition(View(), c, 0) == FirstPetition(View(), c, j)
      {
        var it := maskRequests[j];
        var eligible := CoreIsEligible(it.pid, c);
        if c in it.allowed && eligible {
          if it.howmany <= 1 {
            maskRequests := maskRequests[..j] + maskRequests[j + 1..];
          } else {
            maskRequests := maskRequests[j := it.(howmany := it.howmany - 1)];
          }
          return it.pid;
        }
        j := j + 1;
      }
      guest := NOBODY;
    }

    method AddTask(action: Action, pid: nat, c: nat)
      modifies `tasks
      ensures View() == CpuinfoSpec.Push(old(View()), action, pid, c)
    {
      tasks := tasks + [Task(action, pid, c)];
    }

    /** Look for a guest of CPU c, and enable it. */
    method Refill(c: nat) returns (guest: nat)
      requires Has(View(), c) && nodeInfo[c].guest == NOBODY
      modifies `nodeInfo, `maskRequests, `tasks
      ensures View() == CpuinfoSpec.Refill(old(View()), c) && guest == nodeInfo[c].guest
    {
      FoundHere(View(), c);
      hide CpuinfoSpec.FindNewGuest;
      guest := FindNewGuest(c);
      if guest != NOBODY {
        nodeInfo := nodeInfo[c := nodeInfo[c].(guest := guest)];
        AddTask(Enable, guest, c);
      }
    }

    // -------------------------------------------------------------- lend

    method LendCpu(pid: Pid, c: nat)
      requires Has(View(), c)
      modifies `nodeInfo, `freeCpus, `occupiedCores, `maskRequests, `tasks
      ensures View() == CpuinfoSpec.LendCpu(old(View()), pid, c)
    {
      hide CpuinfoSpec.Refill, FillCore, UpdatedOccupied, LetGo;
      if nodeInfo[c].state == CpuState.Disabled { return; }
      StopUsing(pid, c);
      if nodeInfo[c].guest == NOBODY {
        var guest := Refill(c);
        if guest != NOBODY {
          FillRestOfCore(c);
        } else {
          freeCpus := freeCpus + {c};
        }
      }
      UpdateOccupiedCores(nodeInfo[c].owner, c);
    }

    method StopUsing(pid: Pid, c: nat)
      requires Has(View(), c)
      modifies `nodeInfo
      ensures View() == Put(old(View()), c, LetGo(old(nodeInfo[c]), pid, queuesEnabled))
    {
      hide Without;
      var cpu := nodeInfo[c];
      if cpu.owner == pid {
        cpu := cpu.(state := Lent);
      } else if queuesEnabled {
        cpu := cpu.(requests := Without(cpu.requests, pid));
      }
      if cpu.guest == pid {
        cpu := cpu.(guest := NOBODY);
      }
      nodeInfo := nodeInfo[c := cpu];
    }

    method FillRestOfCore(c: nat)
      requires Has(View(), c)
      modifies `nodeInfo, `freeCpus, `maskRequests, `tasks
      ensures View() == FillCore(old(View()), c, 0)
    {
      hide CpuinfoSpec.Refill;
      var d := 0;
      while d < |nodeInfo|
        invariant d <= |nodeInfo| && Has(View(), c) && SameTopology(old(View()), View())
        invariant FillCore(old(View()), c, 0) == FillCore(View(), c, d)
      {
        if coreId[d] == coreId[c] && d != c && nodeInfo[d].guest == NOBODY {
          var guest := Refill(d);
          if guest != NOBODY {
            freeCpus := freeCpus - {d};
          }
        }
        d := d + 1;
      }
    }

    method LendCpuMask(pid: Pid, mask: set<nat>)
      requires Valid()
      modifies this
      ensures View() == LendMask(old(View()), pid, mask, 0)
    {
      hide CpuinfoSpec.LendCpu;
      var c := 0;
      while c < |nodeInfo|
        invariant c <= |nodeInfo| && Valid() && SameTopology(old(View()), View())
        invariant LendMask(old(View()), pid, mask, 0) == LendMask(View(), pid, mask, c)
      {
        if c in mask {
          LendCpu(pid, c);
        }
        c := c + 1;
      }
    }

    // -------------------------------------------------------------- reclaim

    method ReclaimCpu(pid: Pid, c: nat) returns (code: Code)
      requires Has(View(), c)
      modifies `nodeInfo, `freeCpus, `tasks
      ensures (View(), code) == CpuinfoSpec.ReclaimCpu(old(View()), pid, c)
    {
      var cpu := nodeInfo[c].(state := Busy);
      if cpu.owner != pid { return ErrPerm; }
      nodeInfo := nodeInfo[c := if cpu.guest == NOBODY then cpu.(guest := pid) else cpu];
      if cpu.guest == pid {
        code := NoUpdt;
      } else if cpu.guest == NOBODY {
        AddTask(Enable, pid, c);
        freeCpus := freeCpus - {c};
        code := Success;
      } else {
        AddTask(Disable, cpu.guest, c);
        AddTask(Enable, pid, c);
        code := Noted;
      }
    }

    /** shmem_cpuinfo__reclaim_cpu: a CPU taken from a guest disables the rest of its core. */
    method ReclaimOneCpu(pid: Pid, c: nat) returns (code: Code)
      requires Valid()
      modifies `nodeInfo, `freeCpus, `tasks
      ensures (View(), code) == ReclaimOne(old(View()), pid, c)
    {
      hide CpuinfoSpec.ReclaimCpu;
      if c >= |nodeInfo| { return ErrPerm; }
      code := ReclaimCpu(pid, c);
      if code == Noted && hwHasSmt {
        ghost var s := View();
        var d := 0;
        while d < |nodeInfo|
          invariant d <= |nodeInfo| && Has(View(), c) && SameTopology(s, View())
          invariant DisableRest(s, pid, c, 0) == DisableRest(View(), pid, c, d)
        {
          if coreId[d] == coreId[c] && d != c && nodeInfo[d].guest != pid {
            AddTask(Disable, nodeInfo[d].guest, d);
          }
          d := d + 1;
        }
      }
    }

    method ReclaimAll(pid: Pid) returns (code: Code)
      requires Valid()
      modifies `nodeInfo, `freeCpus, `tasks
      ensures (View(), code) == CpuinfoOps.ReclaimAll(old(View()), pid)
    {
      hide CpuinfoSpec.ReclaimCpu;
      var todo := freeCpus + occupiedCores;
      code := NoUpdt;
      var c := 0;
      while c < |nodeInfo|
        invariant c <= |nodeInfo| && Valid() && SameTopology(old(View()), View())
        invariant CpuinfoOps.ReclaimAll(old(View()), pid) == ReclaimOwned(View(), pid, todo, code, c)
      {
        if c in todo && nodeInfo[c].owner == pid && nodeInfo[c].guest != pid {
          var local := ReclaimCpu(pid, c);
          code := Best(code, local);
        }
        c := c + 1;
      }
    }

    method ReclaimCpuMask(pid: Pid, mask: set<nat>) returns (code: Code)
      requires Valid()
      modifies `nodeInfo, `freeCpus, `tasks
      ensures (View(), code) == ReclaimMask(old(View()), pid, mask)
    {
      hide CpuinfoSpec.ReclaimCpu;
      var todo := (freeCpus + occupiedCores) * mask;
      code := NoUpdt;
      var c := 0;
      while c < |nodeInfo|
        invariant c <= |nodeInfo| && Valid() && SameTopology(old(View()), View())
        invariant ReclaimMask(old(View()), pid, mask) == ReclaimEach(View(), pid, todo, code, c)
      {
        if c in todo {
          var local := ReclaimCpu(pid, c);
          code := Worst(code, local);
        }
        c := c + 1;
      }
    }

    // -------------------------------------------------------------- acquire and borrow

    method AcquireCpu(pid: Pid, c: nat) returns (code: Code)
      requires Has(View(), c)
      modifies `nodeInfo, `freeCpus, `occupiedCores, `tasks
      ensures (View(), code) == CpuinfoSpec.AcquireCpu(old(View()), pid, c)
    {
      hide UpdatedOccupied, CpuinfoSpec.CoreIsEligible;
      var cpu := nodeInfo[c];
      if cpu.guest == pid { return NoUpdt; }
      if cpu.owner == pid {
        if cpu.guest == NOBODY {
          nodeInfo := nodeInfo[c := cpu.(state := Busy, guest := pid)];
          AddTask(Enable, pid, c);
          freeCpus := freeCpus - {c};
          return Success;
        }
        nodeInfo := nodeInfo[c := cpu.(state := Busy)];
        AddTask(Disable, cpu.guest, c);
        AddTask(Enable, pid, c);
        if c !in occupiedCores {
          UpdateOccupiedCores(pid, c);
        }
        return Noted;
      }
      var eligible := CoreIsEligible(pid, c);
      if cpu.guest == NOBODY && cpu.state == Lent && eligible {
        Host(pid, c);
        return Success;
      }
      if queuesEnabled {
        if |cpu.requests| >= REQUESTS_CAPACITY { return ErrReqst; }
        nodeInfo := nodeInfo[c := cpu.(requests := cpu.requests + [pid])];
        return Noted;
      }
      code := if cpu.state != CpuState.Disabled then NoUpdt else ErrPerm;
    }

    method Host(pid: Pid, c: nat)
      requires Has(View(), c)
      modifies `nodeInfo, `freeCpus, `occupiedCores, `tasks
      ensures View() == Hosted(old(View()), pid, c)
    {
      hide UpdatedOccupied;
      nodeInfo := nodeInfo[c := nodeInfo[c].(guest := pid)];
      AddTask(Enable, pid, c);
      freeCpus := freeCpus - {c};
      if nodeInfo[c].owner != NOBODY && c !in occupiedCores {
        UpdateOccupiedCores(nodeInfo[c].owner, c);
      }
    }

    method BorrowCpu(pid: Pid, c: nat) returns (code: Code)
      requires Has(View(), c)
      modifies `nodeInfo, `freeCpus, `occupiedCores, `tasks
      ensures (View(), code) == CpuinfoSpec.BorrowCpu(old(View()), pid, c)
    {
      hide UpdatedOccupied, CpuinfoSpec.CoreIsEligible;
      var cpu := nodeInfo[c];
      if cpu.state == CpuState.Disabled { return ErrPerm; }
      code := NoUpdt;
      var eligible := CoreIsEligible(pid, c);
      if cpu.guest == NOBODY && eligible {
        if cpu.owner == pid {
          nodeInfo := nodeInfo[c := cpu.(state := Busy, guest := pid)];
          AddTask(Enable, pid, c);
          freeCpus := freeCpus - {c};
          code := Success;
        } else if cpu.state == Lent {
          Host(pid, c);
          code := Success;
        }
      }
    }

    method Try(pid: Pid, wish: Wish, c: nat) returns (code: Code)
      requires Has(View(), c)
      modifies `nodeInfo, `freeCpus, `occupiedCores, `tasks
      ensures (View(), code) == Attempt(old(View()), pid, wish, c)
    {
      hide CpuinfoSpec.AcquireCpu, CpuinfoSpec.BorrowCpu, CpuinfoSpec.ReclaimCpu;
      match wish
      case Acquiring => code := AcquireCpu(pid, c);
      case Borrowing => code := BorrowCpu(pid, c);
      case Reclaiming => code := ReclaimCpu(pid, c);
    }

    method TakeWholeCore(pid: Pid, wish: Wish, core: nat) returns (code: Code, count: int)
      requires Valid()
      modifies `nodeInfo, `freeCpus, `occupiedCores, `tasks
      ensures TakeCore(old(View()), pid, wish, core, 0, NoUpdt, 0) == Batch(View(), code, count)
    {
      hide Attempt;
      code, count := NoUpdt, 0;
      var c := 0;
      while c < |nodeInfo|
        invariant c <= |nodeInfo| && Valid() && SameTopology(old(View()), View())
        invariant TakeCore(old(View()), pid, wish, core, 0, NoUpdt, 0) == TakeCore(View(), pid, wish, core, c, code, count)
      {
        if coreId[c] == core {
          var local := Try(pid, wish, c);
          if local == Success || local == Noted {
            count := count + 1;
            if code != Noted {
              code := local;
            }
          } else if nodeInfo[c].guest != pid {
            return;
          }
        }
        c := c + 1;
      }
    }

    method TakeFromList(pid: Pid, wish: Wish, list: seq<nat>, wanted: int) returns (code: Code, left: int)
      requires Valid() && InTable(View(), list)
      modifies `nodeInfo, `freeCpus, `occupiedCores, `tasks
      ensures TakeArray(old(View()), pid, wish, list, 0, wanted, -1, NoUpdt) == Batch(View(), code, left)
      ensures SameTopology(old(View()), View())
    {
      hide Attempt, TakeCore;
      code, left := NoUpdt, wanted;
      var prev: int, i: nat := -1, 0;
      while left > 0 && i < |list|
        invariant i <= |list| && Valid() && SameTopology(old(View()), View()) && InTable(View(), list)
        invariant TakeArray(old(View()), pid, wish, list, 0, wanted, -1, NoUpdt) ==
          TakeArray(View(), pid, wish, list, i, left, prev, code)
        decreases |list| - i
      {
        var c := list[i];
        if hwHasSmt {
          var core := coreId[c];
          if prev != core {
            var local, count := TakeWholeCore(pid, wish, core);
            if local == Success || local == Noted {
              left := left - count;
              if code != Noted {
                code := local;
              }
            }
            prev := core;
          }
        } else {
          var local := Try(pid, wish, c);
          if local == Success || local == Noted {
            left := left - 1;
            if code != Noted {
              code := local;
            }
          }
        }
        i := i + 1;
      }
    }

    method BorrowNcpus(pid: Pid, wanted: int, list: seq<nat>, spread: bool,
        freeNodes: State -> seq<nat>) returns (code: Code)
      requires Valid() && InTable(View(), list)
      modifies `nodeInfo, `freeCpus, `occupiedCores, `tasks
      ensures (View(), code) == CpuinfoOps.BorrowNcpus(old(View()), pid, wanted, list, spread, freeNodes)
    {
      hide TakeArray;
      var ncpus := if freeCpus == {} then 0 else wanted;
      code, ncpus := TakeFromList(pid, Borrowing, list, ncpus);
      if spread && ncpus > 0 {
        var nodes := freeNodes(View());
        if InTable(View(), nodes) {
          var local, left := TakeFromList(pid, Borrowing, nodes, ncpus);
          if local == Success {
            code := Success;
          }
        }
      }
    }

    method ReclaimCpus(pid: Pid, ncpus: int, numCores: nat) returns (code: Code)
      requires Valid()
      modifies `nodeInfo, `freeCpus, `occupiedCores, `tasks
      ensures (View(), code) == CpuinfoOps.ReclaimCpus(old(View()), pid, ncpus, numCores, 0, NoUpdt)
    {
      hide TakeCore;
      code := NoUpdt;
      var left, core := ncpus, 0;
      while core < numCores && left > 0
        invariant core <= numCores && Valid() && SameTopology(old(View()), View())
        invariant CpuinfoOps.ReclaimCpus(old(View()), pid, ncpus, numCores, 0, NoUpdt) ==
          CpuinfoOps.ReclaimCpus(View(), pid, left, numCores, core, code)
        decreases numCores - core
      {
        var local, count := TakeWholeCore(pid, Reclaiming, core);
        if local == Success || local == Noted {
          left := left - count;
        }
        code := Best(code, local);
        core := core + 1;
      }
    }

    /** The CPUs of a list, in order, that are of a kind. */
    method SelectCpus(pid: Pid, list: seq<nat>, kind: Kind) returns (r: seq<nat>)
      requires Valid() && InTable(View(), list)
      ensures r == Select(View(), pid, list, kind)
    {
      r := [];
      var i := 0;
      while i < |list|
        invariant i <= |list| && r == SelectFirst(View(), pid, list, kind, i)
      {
        if OfKind(nodeInfo[list[i]], pid, kind) {
          r := r + [list[i]];
        }
        i := i + 1;
      }
    }

    method AskForCpus(pid: Pid, list: seq<nat>, start: Code) returns (code: Code)
      requires Valid() && InTable(View(), list)
      modifies `nodeInfo
      ensures (View(), code) == AskEach(old(View()), pid, list, 0, start)
    {
      code := start;
      var i := 0;
      while i < |list|
        invariant i <= |list| && Valid() && SameTopology(old(View()), View()) && InTable(View(), list)
        invariant AskEach(old(View()), pid, list, 0, start) == AskEach(View(), pid, list, i, code)
      {
        var cpu := nodeInfo[list[i]];
        if cpu.state == CpuState.Disabled || (cpu.owner != pid && cpu.guest != pid) {
          if pid !in cpu.requests && |cpu.requests| < REQUESTS_CAPACITY {
            nodeInfo := nodeInfo[list[i] := cpu.(requests := cpu.requests + [pid])];
            code := Noted;
          }
        }
        i := i + 1;
      }
    }

    method PostPetition(p: Petition) returns (code: Code)
      modifies `maskRequests
      ensures (maskRequests, code) == Posted(old(maskRequests), p, 0)
    {
      var i := 0;
      while i < |maskRequests|
        invariant i <= |maskRequests| && maskRequests == old(maskRequests)
        invariant Posted(maskRequests, p, 0) == Posted(maskRequests, p, i)
      {
        var it := maskRequests[i];
        if it.pid == p.pid && it.allowed == p.allowed {
          maskRequests := maskRequests[i := it.(howmany := it.howmany + p.howmany)];
          return Noted;
        }
        i := i + 1;
      }
      if |maskRequests| >= PETITIONS_CAPACITY { return ErrReqst; }
      maskRequests := maskRequests + [p];
      code := Noted;
    }

    method AcquireNcpus(pid: Pid, counted: bool, wanted: int, list: seq<nat>) returns (code: Code)
      requires Valid() && InTable(View(), list)
      modifies `nodeInfo, `freeCpus, `occupiedCores, `tasks, `maskRequests
      ensures (View(), code) == CpuinfoOps.AcquireNcpus(old(View()), pid, counted, wanted, list)
    {
      hide TakeArray, Select, AskEach, Posted;
      var ownedIdle := SelectCpus(pid, list, OwnedIdle);
      var ownedInUse := SelectCpus(pid, list, OwnedInUse);
      var notOwned := SelectCpus(pid, list, NotOwned);
      var ncpus, local;
      code, ncpus := TakeFromList(pid, Acquiring, ownedIdle, wanted);
      local, ncpus := TakeFromList(pid, Acquiring, ownedInUse, ncpus);
      code := Merged(code, local);
      local, ncpus := TakeFromList(pid, Borrowing, notOwned, ncpus);
      code := Merged(code, local);
      if queuesEnabled {
        if counted {
          if ncpus > 0 {
            var allowed := set k | 0 <= k < |list| :: list[k];
            code := PostPetition(Petition(pid, ncpus, allowed));
          }
        } else {
          code := AskForCpus(pid, list, code);
        }
      }
    }

    // -------------------------------------------------------------- return

    method ReturnCpu(pid: Pid, c: nat) returns (code: Code)
      requires Has(View(), c)
      modifies `nodeInfo, `freeCpus, `occupiedCores, `tasks
      ensures (View(), code) == CpuinfoSpec.ReturnCpu(old(View()), pid, c)
    {
      hide UpdatedOccupied, CpuinfoSpec.CoreIsEligible;
      var cpu := nodeInfo[c];
      if cpu.owner == pid || cpu.guest != pid { return NoUpdt; }
      if cpu.state == Lent {
        var eligible := CoreIsEligible(pid, c);
        if eligible { return NoUpdt; }
      }
      if cpu.state == Busy {
        nodeInfo := nodeInfo[c := cpu.(guest := cpu.owner)];
      } else {
        nodeInfo := nodeInfo[c := cpu.(guest := NOBODY)];
        freeCpus := freeCpus + {c};
      }
      UpdateOccupiedCores(cpu.owner, c);
      AddTask(Disable, pid, c);
      code := Success;
    }

    method ReturnAll(pid: Pid) returns (code: Code)
      requires Valid()
      modifies `nodeInfo, `freeCpus, `occupiedCores, `tasks
      ensures (View(), code) == CpuinfoOps.ReturnAll(old(View()), pid, NoUpdt, 0)
    {
      hide CpuinfoSpec.ReturnCpu;
      code := NoUpdt;
      var c := 0;
      while c < |nodeInfo|
        invariant c <= |nodeInfo| && Valid() && SameTopology(old(View()), View())
        invariant CpuinfoOps.ReturnAll(old(View()), pid, NoUpdt, 0) == CpuinfoOps.ReturnAll(View(), pid, code, c)
      {
        if c in occupiedCores {
          var local := ReturnCpu(pid, c);
          if local == Success && code == NoUpdt {
            code := Success;
          }
        }
        c := c + 1;
      }
    }

    method ReturnCpuMask(pid: Pid, mask: set<nat>) returns (code: Code)
      requires Valid()
      modifies `nodeInfo, `freeCpus, `occupiedCores, `tasks
      ensures (View(), code) == ReturnEach(old(View()), pid, mask * old(occupiedCores), NoUpdt, 0)
    {
      hide CpuinfoSpec.ReturnCpu;
      var todo := mask * occupiedCores;
      code := NoUpdt;
      var c := 0;
      while c < |nodeInfo|
        invariant c <= |nodeInfo| && Valid() && SameTopology(old(View()), View())
        invariant ReturnEach(old(View()), pid, todo, NoUpdt, 0) == ReturnEach(View(), pid, todo, code, c)
      {
        if c in todo {
          var local := ReturnCpu(pid, c);
          if !code.IsError() {
            code := local;
          }
        }
        c := c + 1;
      }
    }

    /** shmem_cpuinfo__return_async */
    method ReturnAsyncCpu(pid: Pid, c: nat)
      requires Has(View(), c)
      modifies `nodeInfo, `freeCpus, `occupiedCores
      ensures View() == CpuinfoSpec.ReturnAsync(old(View()), pid, c)
    {
      hide UpdatedOccupied;
      var cpu := nodeInfo[c];
      if cpu.state == Busy {
        nodeInfo := nodeInfo[c := cpu.(guest := cpu.owner)];
      } else {
        nodeInfo := nodeInfo[c := cpu.(guest := NOBODY)];
        freeCpus := freeCpus + {c};
      }
      UpdateOccupiedCores(cpu.owner, c);
      nodeInfo := nodeInfo[c := nodeInfo[c].(requests := Enqueued(nodeInfo[c].requests, pid))];
    }

    method ReturnAsyncCpuMask(pid: Pid, mask: set<nat>)
      requires Valid()
      modifies `nodeInfo, `freeCpus, `occupiedCores
      ensures View() == ReturnAsyncMask(old(View()), pid, mask, 0)
    {
      hide CpuinfoSpec.ReturnAsync;
      var c := 0;
      while c < |nodeInfo|
        invariant c <= |nodeInfo| && Valid() && SameTopology(old(View()), View())
        invariant ReturnAsyncMask(old(View()), pid, mask, 0) == ReturnAsyncMask(View(), pid, mask, c)
      {
        if c in mask {
          ReturnAsyncCpu(pid, c);
        }
        c := c + 1;
      }
    }

    // -------------------------------------------------------------- processes

    /** deregister_cpu */
    method DeregisterCpu(pid: Pid, public: bool, c: nat)
      requires Has(View(), c)
      modifies `nodeInfo, `freeCpus, `occupiedCores
      ensures View() == ForgetCpu(old(View()), pid, public, c)
    {
      hide Without;
      var cpu := nodeInfo[c];
      if cpu.owner == pid {
        cpu := cpu.(owner := NOBODY);
        if cpu.guest == pid {
          cpu := cpu.(guest := NOBODY);
        }
        if public {
          cpu := cpu.(state := Lent);
          if cpu.guest == NOBODY {
            freeCpus := freeCpus + {c};
          }
        } else {
          cpu := cpu.(state := CpuState.Disabled, requests := []);
          freeCpus := freeCpus - {c};
        }
        occupiedCores := occupiedCores - CoreMask(View(), c);
      } else {
        if cpu.guest == pid {
          cpu := cpu.(guest := NOBODY);
          freeCpus := freeCpus + {c};
        }
        if queuesEnabled {
          cpu := cpu.(requests := Without(cpu.requests, pid));
        }
      }
      nodeInfo := nodeInfo[c := cpu];
    }

    /** deregister_process */
    method DeregisterProcess(pid: Pid, public: bool)
      requires Valid()
      modifies `nodeInfo, `freeCpus, `occupiedCores, `maskRequests
      ensures View() == ForgetProcess(old(View()), pid, public)
    {
      hide ForgetCpu, OthersPetitions;
      var c := 0;
      while c < |nodeInfo|
        invariant c <= |nodeInfo| && Valid() && SameTopology(old(View()), View())
        invariant ForgetFrom(old(View()), pid, public, 0) == ForgetFrom(View(), pid, public, c)
      {
        DeregisterCpu(pid, public, c);
        c := c + 1;
      }
      if queuesEnabled {
        maskRequests := OthersPetitions(maskRequests, pid);
      }
    }

    /** One CPU of shmem_cpuinfo__update_ownership */
    method TransferCpu(pid: Pid, mine: bool, c: nat)
      requires Has(View(), c)
      modifies `nodeInfo, `freeCpus, `occupiedCores, `tasks
      ensures View() == OwnCpu(old(View()), pid, mine, c)
    {
      hide CpuinfoSpec.ReturnCpu;
      var cpu := nodeInfo[c];
      if mine {
        if cpu.owner != pid {
          cpu := cpu.(owner := pid, state := Busy);
          if cpu.guest == NOBODY {
            cpu := cpu.(guest := pid);
            freeCpus := freeCpus - {c};
            occupiedCores := occupiedCores - {c};
          }
          nodeInfo := nodeInfo[c := cpu];
          if cpu.guest != pid {
            AddTask(Disable, cpu.guest, c);
          }
          AddTask(Enable, pid, c);
        }
      } else if cpu.owner == pid {
        if cpu.guest == pid {
          nodeInfo := nodeInfo[c := cpu.(owner := NOBODY, state := CpuState.Disabled, guest := NOBODY)];
          AddTask(Disable, pid, c);
          freeCpus := freeCpus - {c};
        } else {
          nodeInfo := nodeInfo[c := cpu.(owner := NOBODY, state := CpuState.Disabled)];
        }
      } else if cpu.guest == pid && cpu.state == Busy {
        var code := ReturnCpu(pid, c);
      }
    }

    method UpdateOwnership(pid: Pid, mask: set<nat>)
      requires Valid()
      modifies `nodeInfo, `freeCpus, `occupiedCores, `tasks
      ensures View() == OwnFrom(old(View()), pid, mask, 0)
    {
      hide OwnCpu;
      var c := 0;
      while c < |nodeInfo|
        invariant c <= |nodeInfo| && Valid() && SameTopology(old(View()), View())
        invariant OwnFrom(old(View()), pid, mask, 0) == OwnFrom(View(), pid, mask, c)
      {
        TransferCpu(pid, c in mask, c);
        c := c + 1;
      }
    }

    method CheckCpuAvailability(pid: Pid, c: nat) returns (code: Code)
      requires Has(View(), c)
      modifies `nodeInfo, `freeCpus
      ensures (View(), code) == CheckCpu(old(View()), pid, c)
    {
      var cpu := nodeInfo[c];
      code := Noted;
      if cpu.owner != pid && (cpu.state == Busy || cpu.state == CpuState.Disabled) {
        code := ErrPerm;
      } else if cpu.guest == pid {
        code := Success;
      } else if cpu.guest == NOBODY {
        nodeInfo := nodeInfo[c := cpu.(guest := pid)];
        freeCpus := freeCpus - {c};
        code := Success;
      } else if cpu.owner == pid && cpu.state == Lent {
        code := NoUpdt;
      }
    }

    method RegisterCpu(pid: Pid, preinitPid: nat, c: nat)
      requires Has(View(), c)
      modifies `nodeInfo, `freeCpus, `occupiedCores
      ensures View() == CpuinfoSpec.RegisterCpu(old(View()), pid, preinitPid, c)
    {
      hide UpdatedOccupied;
      var cpu := nodeInfo[c].(owner := pid, state := Busy);
      if cpu.guest == NOBODY || cpu.guest == preinitPid {
        cpu := cpu.(guest := pid);
      }
      nodeInfo := nodeInfo[c := cpu];
      freeCpus := freeCpus - {c};
      UpdateOccupiedCores(pid, c);
    }

    method RegisterProcess(pid: Pid, preinitPid: nat, mask: set<nat>) returns (code: Code)
      requires Valid()
      modifies `nodeInfo, `freeCpus, `occupiedCores
      ensures (View(), code) == CpuinfoOps.RegisterProcess(old(View()), pid, preinitPid, mask)
    {
      hide CpuinfoSpec.RegisterCpu;
      var c := 0;
      while c < |nodeInfo|
        invariant c <= |nodeInfo|
        invariant forall d :: 0 <= d < c && d in mask ==> nodeInfo[d].owner in {NOBODY, pid, preinitPid}
      {
        if c in mask {
          var owner := nodeInfo[c].owner;
          if owner != NOBODY && owner != pid && owner != preinitPid { return ErrPerm; }
        }
        c := c + 1;
      }
      c := 0;
      while c < |nodeInfo|
        invariant c <= |nodeInfo| && Valid() && SameTopology(old(View()), View())
        invariant RegisterMask(old(View()), pid, preinitPid, mask, 0) == RegisterMask(View(), pid, preinitPid, mask, c)
      {
        if c in mask {
          RegisterCpu(pid, preinitPid, c);
        }
        c := c + 1;
      }
      code := Success;
    }

    method LeaveCpu(pid: Pid, public: bool, c: nat)
      requires Has(View(), c)
      modifies this
      ensures View() == CpuinfoSpec.LeaveCpu(old(View()), pid, public, c)
    {
      hide CpuinfoSpec.LendCpu, CpuinfoSpec.ReclaimCpu;
      if nodeInfo[c].owner == pid {
        if public {
          LendCpu(pid, c);
        } else {
          var code := ReclaimCpu(pid, c);
          if nodeInfo[c].guest == pid {
            nodeInfo := nodeInfo[c := nodeInfo[c].(guest := NOBODY)];
          }
          nodeInfo := nodeInfo[c := nodeInfo[c].(state := CpuState.Disabled)];
          freeCpus := freeCpus - {c};
        }
        nodeInfo := nodeInfo[c := nodeInfo[c].(owner := NOBODY)];
        occupiedCores := occupiedCores - {c};
      } else if nodeInfo[c].guest == pid {
        LendCpu(pid, c);
      }
    }

    method WithdrawRequests(pid: Pid)
      requires Valid()
      modifies `nodeInfo, `maskRequests
      ensures View() == Withdrawn(old(View()), pid)
    {
      hide Without, OthersPetitions;
      if queuesEnabled {
        maskRequests := OthersPetitions(maskRequests, pid);
        ghost var s := View();
        var c := 0;
        while c < |nodeInfo|
          invariant c <= |nodeInfo| && Valid() && SameTopology(s, View())
          invariant WithdrawFrom(s, pid, 0) == WithdrawFrom(View(), pid, c)
        {
          if nodeInfo[c].owner != pid {
            nodeInfo := nodeInfo[c := nodeInfo[c].(requests := Without(nodeInfo[c].requests, pid))];
          }
          c := c + 1;
        }
      }
    }

    method RemoveRequests(pid: Pid)
      requires Valid()
      modifies this
      ensures View() == CpuinfoOps.RemoveRequests(old(View()), pid)
    {
      hide Without, OthersPetitions;
      if !queuesEnabled { return; }
      maskRequests := OthersPetitions(maskRequests, pid);
      ghost var s := View();
      var c := 0;
      while c < |nodeInfo|
        invariant c <= |nodeInfo| && Valid() && SameTopology(s, View())
        invariant RemoveFrom(s, pid, 0) == RemoveFrom(View(), pid, c)
      {
        nodeInfo := nodeInfo[c := nodeInfo[c].(requests := Without(nodeInfo[c].requests, pid))];
        c := c + 1;
      }
    }

    method Deregister(pid: Pid, public: bool)
      requires Valid()
      modifies this
      ensures View() == CpuinfoOps.Deregister(old(View()), pid, public)
    {
      hide CpuinfoSpec.LeaveCpu, Withdrawn;
      WithdrawRequests(pid);
      ghost var s := View();
      var c := 0;
      while c < |nodeInfo|
        invariant c <= |nodeInfo| && Valid() && SameTopology(s, View())
        invariant LeaveFrom(s, pid, public, 0) == LeaveFrom(View(), pid, public, c)
      {
        LeaveCpu(pid, public, c);
        c := c + 1;
      }
    }

    method Reset(pid: Pid)
      requires Valid()
      modifies this
      ensures View() == CpuinfoOps.Reset(old(View()), pid)
    {
      hide CpuinfoSpec.LendCpu, CpuinfoSpec.ReclaimCpu, Withdrawn;
      WithdrawRequests(pid);
      ghost var s := View();
      var c := 0;
      while c < |nodeInfo|
        invariant c <= |nodeInfo| && Valid() && SameTopology(s, View())
        invariant ResetFrom(s, pid, 0) == ResetFrom(View(), pid, c)
      {
        if nodeInfo[c].owner == pid {
          var code := ReclaimCpu(pid, c);
        } else if nodeInfo[c].guest == pid {
          LendCpu(pid, c);
          AddTask(Disable, pid, c);
        }
        c := c + 1;
      }
    }

    method UpdateMaxParallelism(pid: Pid, max: nat)
      requires Valid()
      modifies this
      ensures View() == UpdateMax(old(View()), pid, max)
    {
      hide CpuinfoSpec.LendCpu;
      var owned: nat, guested: seq<nat> := 0, [];
      var c := 0;
      while c < |nodeInfo|
        invariant c <= |nodeInfo| && Valid() && SameTopology(old(View()), View()) && InTable(View(), guested)
        invariant LendOwned(old(View()), pid, max, 0, 0, []) == LendOwned(View(), pid, max, c, owned, guested)
      {
        if nodeInfo[c].owner == pid {
          owned := owned + 1;
          if max < owned {
            LendCpu(pid, c);
            AddTask(Disable, pid, c);
          }
        } else if nodeInfo[c].guest == pid {
          guested := guested + [c];
        }
        c := c + 1;
      }
      ghost var s := View();
      var i := 0;
      while i < |guested|
        invariant i <= |guested| && Valid() && SameTopology(s, View()) && InTable(View(), guested)
        invariant LendGuested(s, pid, max, owned, guested, 0) == LendGuested(View(), pid, max, owned, guested, i)
      {
        if max < owned + i + 1 {
          LendCpu(pid, guested[i]);
          AddTask(Disable, pid, guested[i]);
        }
        i := i + 1;
      }
    }
  }

  /** The search for a guest of a CPU leaves its guest alone. */
  lemma FoundHere(s: State, c: nat)
    requires Has(s, c)
    ensures CpuinfoSpec.FindNewGuest(s, c).1.cpus[c].guest == s.cpus[c].guest
  {
    hide CpuinfoSpec.CoreIsEligible;
  }
}
