/** How a new mask reaches its process: setprocessmask marks exactly the processes whose CPUs change, and the next poll
    of each hands over the mask it was given, once (src/LB_comm/shmem_procinfo.c). */
module ProcinfoDelivery {
  import opened Codes
  import opened ProcinfoSpec
  import opened ProcinfoInvariant
  import opened ProcinfoSetMask
  import opened ProcinfoOps

  // ---------------------------------------------------------------- who is told

  /** What no change of ownership touches. */
  ghost predicate SameIdentity(a: Proc, b: Proc) {
    b.pid == a.pid && b.prereg == a.prereg && b.current == a.current
  }

  /** A process is told of nothing, or of CPUs that it loses in the mask. */
  lemma StealTells(s: Shared, owner: nat, mask: Mask, q: nat)
    requires owner < |s.procs| && s.num <= |s.procs| && q < |s.procs| && Steal(s, owner, mask, false).1 == Success
    ensures var a, b := s.procs[q], Steal(s, owner, mask, false).0.procs[q];
      && SameIdentity(a, b) && (a.dirty ==> b.dirty)
      && (q == owner ==> (b.dirty <==> a.dirty || mask != {}))
      && (q != owner && b.dirty && !a.dirty ==> a.current * mask != {})
  {
    hide Steal;
    if mask == {} {
      StealNothing(s, owner);
    } else {
      StealEffect(s, owner, mask);
    }
  }

  lemma GiveBackTells(s: Shared, owner: nat, k: nat, q: nat)
    requires owner < |s.procs| && s.num <= |s.procs| && q < |s.procs|
    ensures var a, b := s.procs[q], GiveBack(s, owner, k).procs[q];
      SameIdentity(a, b) && (a.dirty ==> b.dirty) && (b.dirty && !a.dirty ==> q == owner || Home(s, k) == q)
      && (q == owner ==> b.dirty)
  {
  }

  lemma {:induction false} GiveBackFromTells(s: Shared, owner: nat, mask: Mask, k: nat, q: nat) returns (c: nat)
    requires owner < |s.procs| && s.num <= |s.procs| && q < |s.procs|
    ensures var a, b := s.procs[q], GiveBackFrom(s, owner, mask, k).procs[q];
      && SameIdentity(a, b) && (a.dirty ==> b.dirty)
      && (q != owner && b.dirty && !a.dirty ==> c in mask && k <= c < s.size && Home(s, c) == q)
      && (q == owner ==> (b.dirty <==> a.dirty || exists d: nat :: d in mask && k <= d < s.size))
    decreases s.size - k
  {
    hide GiveBack, Home;
    c := 0;
    if k < s.size {
      if k in mask {
        GiveBackTells(s, owner, k, q);
        var t := GiveBack(s, owner, k);
        c := GiveBackFromTells(t, owner, mask, k + 1, q);
        if t.procs[q].dirty {
          c := k;
        } else if c != k {
          GiveBackHome(s, owner, k, c);
        }
      } else {
        c := GiveBackFromTells(s, owner, mask, k + 1, q);
      }
    }
  }

  lemma ReleaseTells(s: Shared, owner: nat, mask: Mask, returnStolen: bool, q: nat) returns (c: nat)
    requires owner < |s.procs| && s.num <= |s.procs| && q < |s.procs| && !s.sharing && forall d :: d in mask ==> d < s.size
    ensures var a, b := s.procs[q], Unregister(s, owner, mask, returnStolen).procs[q];
      && SameIdentity(a, b) && (a.dirty ==> b.dirty)
      && (q != owner && b.dirty && !a.dirty ==> returnStolen && c in mask && Home(s, c) == q)
      && (q == owner ==> (b.dirty <==> a.dirty || mask != {}))
  {
    c := 0;
    if returnStolen && mask != {} {
      c := GiveBackFromTells(s, owner, mask, 0, q);
      hide GiveBackFrom, Home;
      var d :| d in mask;
      assert 0 <= d < s.size;
    }
  }

  lemma GainedTells(s: Shared, i: nat, mask: Mask, q: nat)
    requires i < |s.procs| && s.num <= |s.procs| && q < |s.procs| && !s.sharing
    requires Steal(s, i, ToSteal(s, i, mask), false).1 == Success
    ensures var a, b := s.procs[q], Gained(s, i, mask).procs[q];
      && SameIdentity(a, b) && (a.dirty ==> b.dirty)
      && (q == i ==> (b.dirty <==> a.dirty || ToSteal(s, i, mask) != {} || ToAcquire(s, mask) != {}))
      && (q != i && b.dirty && !a.dirty ==> a.current * ToSteal(s, i, mask) != {})
  {
    StealTells(s, i, ToSteal(s, i, mask), q);
    StealFree(s, i, ToSteal(s, i, mask));
    hide Steal, ToSteal;
  }

  lemma NothingToDo(s: Shared, i: nat, mask: Mask)
    requires Settable(s, i)
    ensures ToSteal(s, i, mask) == {} && ToAcquire(s, mask) == {} && ToFree(s, i, mask) == {} <==>
      InRange(mask, s.size) == s.procs[i].current
  {
    assert SlotOk(s.procs[i], s.system);
    forall c | c in s.procs[i].current ensures c < s.size && c !in s.free {
      assert c in s.procs[i].future;
      var h := PlaceOf(s, c);
    }
    if ToSteal(s, i, mask) == {} && ToAcquire(s, mask) == {} && ToFree(s, i, mask) == {} {
      forall c | c in InRange(mask, s.size) ensures c in s.procs[i].current {
        assert c !in ToSteal(s, i, mask) && c !in ToAcquire(s, mask);
      }
      forall c | c in s.procs[i].current ensures c in InRange(mask, s.size) {
        assert c !in ToFree(s, i, mask);
      }
    }
  }

  /** A successful set_new_mask marks exactly the processes whose future mask it changes, and touches nobody's current
      mask. */
  lemma ChangedAreTold(s: Shared, i: nat, mask: Mask, returnStolen: bool, q: nat)
    requires Settable(s, i) && q < |s.procs| && SetNewMask(s, i, mask, returnStolen).1 == Success
    ensures var a, b := s.procs[q], SetNewMask(s, i, mask, returnStolen).0.procs[q];
      && SameIdentity(a, b) && (a.dirty ==> b.dirty)
      && (!a.dirty ==> (b.dirty <==> b.future != a.future))
  {
    SetNewMaskCases(s, i, mask, returnStolen);
    StealNeverRollsBack(s, i, ToSteal(s, i, mask));
    SetNewMaskAllOrNothing(s, i, mask, returnStolen);
    NothingToDo(s, i, mask);
    assert SlotOk(s.procs[q], s.system);
    var u, t, free := Gained(s, i, mask), SetNewMask(s, i, mask, returnStolen).0, ToFree(s, i, mask);
    assert SlotOk(t.procs[q], t.system);
    hide SetNewMask, Steal, Unregister, Home, SlotsOk, Partition;
    GainedTells(s, i, mask, q);
    GainedKeeps(s, i, mask);
    hide Gained;
    var c := ReleaseTells(u, i, free, returnStolen, q);
    if q != i && !s.procs[q].dirty && t.procs[q].dirty {
      SetNewMaskOthers(s, i, mask, returnStolen, q);
      if u.procs[q].dirty {
        var d :| d in s.procs[q].current * ToSteal(s, i, mask);
        assert d in s.procs[q].future && d in mask;
        assert d !in t.procs[q].future;
      } else {
        GainedHome(s, i, mask, c);
        assert c in s.procs[i].future - mask;
        NotShared(s, i, q, c);
        assert c in t.procs[q].future;
      }
    }
  }

  lemma NotShared(s: Shared, i: nat, q: nat, c: nat)
    requires Partition(s) && i < |s.procs| && q < |s.procs| && i != q && c in s.procs[i].future
    ensures c !in s.procs[q].future
  {
    var h := PlaceOf(s, c);
  }

  // ---------------------------------------------------------------- set, then poll

  /** t is s with the change of process i delivered: its current mask is the pending one. Nothing else differs. */
  ghost predicate Delivered(s: Shared, t: Shared, i: nat) {
    && SameShape(s, t) && t.free == s.free && i < |s.procs|
    && (forall q :: 0 <= q < |s.procs| && q != i ==> t.procs[q] == s.procs[q])
    && var a, b := s.procs[i], t.procs[i];
      && b.current == a.future && b.future == a.future && !b.dirty
      && b.pid == a.pid && b.prereg == a.prereg && b.stolen == a.stolen
  }

  /** A poll answers that there is a new mask exactly when one is pending, and then delivers it; otherwise it changes
      nothing and answers the mask in use. */
  lemma PollAnswers(s: Shared, i: nat, updated: Code, idle: Code)
    requires i < |s.procs| && updated != idle && updated != ErrNoProc && idle != ErrNoProc
    ensures var (t, code, mask) := Poll(s, i, updated, idle);
      && SameShape(s, t)
      && (code == ErrNoProc <==> s.procs[i].pid == NOBODY)
      && (code == updated <==> s.procs[i].pid != NOBODY && s.procs[i].dirty)
      && (code == updated ==> Delivered(s, t, i))
      && (code != updated ==> t == s)
      && (code != ErrNoProc ==> mask == t.procs[i].current && !t.procs[i].dirty)
  {
  }

  /** What setprocessmask answers, and what it leaves: the requested mask pending, nobody's mask in use changed, and every
      CPU where set_new_mask puts it. */
  lemma SetMaskOutcome(s: Shared, i: nat, mask: Mask, returnStolen: bool)
    requires Valid(s) && i < |s.procs|
    ensures var (t, code) := SetMask(s, i, mask, returnStolen);
      && SameShape(s, t)
      && (code == ErrNoProc <==> s.procs[i].pid == NOBODY)
      && (code == ErrPDirty <==> s.procs[i].pid != NOBODY && s.procs[i].dirty)
      && (code in {Success, ErrPerm, ErrNoProc, ErrPDirty}) && (code != Success ==> t == s)
      && (code == Success ==> t.procs[i].future == InRange(mask, s.size) && t.procs[i].current == s.procs[i].current)
      && (code == Success ==> (t.procs[i].dirty <==> InRange(mask, s.size) != s.procs[i].current))
  {
    hide SetNewMask, Steal, InRange, ToSteal;
    if s.procs[i].pid != NOBODY && !s.procs[i].dirty {
      assert SlotOk(s.procs[i], s.system);
      SetNewMaskAllOrNothing(s, i, mask, returnStolen);
      if SetNewMask(s, i, mask, returnStolen).1 == Success {
        ChangedAreTold(s, i, mask, returnStolen, i);
      }
    }
  }

  lemma SetMaskPlaces(s: Shared, i: nat, mask: Mask, returnStolen: bool, c: nat, h: int)
    requires Valid(s) && i < |s.procs| && At(s, c, h) && SetMask(s, i, mask, returnStolen).1 == Success
    ensures At(SetMask(s, i, mask, returnStolen).0, c,
               if c in mask && c < s.size then i else if h != i then h else if returnStolen then Home(s, c) else FREE)
  {
    hide SetNewMask, Home, At;
    SetNewMaskAt(s, i, mask, returnStolen, c, h);
  }

  /** A new mask is delivered once: after a successful setprocessmask with a different mask, the next poll of the process
      answers that mask, puts it in use and clears the notice, and changes nothing else; the poll after it answers
      that there is nothing new. */
  lemma MaskIsDeliveredOnce(s: Shared, i: nat, mask: Mask, returnStolen: bool)
    requires Valid(s) && i < |s.procs| && SetMask(s, i, mask, returnStolen).1 == Success
    requires InRange(mask, s.size) == mask && mask != s.procs[i].current
    ensures var t := SetMask(s, i, mask, returnStolen).0;
      var (u, code, answer) := Poll(t, i, Success, NoUpdt);
      && code == Success && answer == mask && Delivered(t, u, i) && u.procs[i].current == mask
      && Poll(u, i, Success, NoUpdt) == (u, NoUpdt, mask)
  {
    SetMaskOutcome(s, i, mask, returnStolen);
    var t := SetMask(s, i, mask, returnStolen).0;
    assert t.procs[i].pid != NOBODY by {
      ChangedAreTold(s, i, mask, returnStolen, i);
      hide SetNewMask;
    }
    hide SetMask;
    PollAnswers(t, i, Success, NoUpdt);
    var u := Poll(t, i, Success, NoUpdt).0;
    PollAnswers(u, i, Success, NoUpdt);
  }

  /** Everybody else that loses or gets CPUs finds it out in the same way, and nobody else hears anything. */
  lemma OthersAreDelivered(s: Shared, i: nat, mask: Mask, returnStolen: bool, q: nat)
    requires Valid(s) && i < |s.procs| && SetMask(s, i, mask, returnStolen).1 == Success
    requires q < |s.procs| && q != i && s.procs[q].pid != NOBODY && !s.procs[q].dirty
    ensures var t := SetMask(s, i, mask, returnStolen).0;
      var lost, got := s.procs[q].current * mask, set c | c in s.procs[i].current - mask && returnStolen && Home(s, c) == q;
      var (u, code, answer) := Poll(t, q, Success, NoUpdt);
      && answer == s.procs[q].current - lost + got
      && (code == Success <==> lost + got != {}) && (code == NoUpdt <==> lost + got == {})
  {
    assert SlotOk(s.procs[q], s.system) && SlotOk(s.procs[i], s.system);
    SetNewMaskOthers(s, i, mask, returnStolen, q);
    ChangedAreTold(s, i, mask, returnStolen, q);
    forall c | c in s.procs[i].future ensures c !in s.procs[q].future {
      NotShared(s, i, q, c);
    }
    hide SetNewMask, Home, Partition, SlotsOk;
    var t := SetMask(s, i, mask, returnStolen).0;
    PollAnswers(t, q, Success, NoUpdt);
    var lost, got := s.procs[q].current * mask, set c | c in s.procs[i].current - mask && returnStolen && Home(s, c) == q;
    assert t.procs[q].future == s.procs[q].current - lost + got;
    if lost + got == {} {
      assert s.procs[q].current - lost + got == s.procs[q].current;
    } else {
      var c :| c in lost + got;
      assert c in lost ==> c !in t.procs[q].future;
      assert c in got ==> c in t.procs[q].future;
    }
  }

  /** A process that sets its own mask has it in use at once, which is what setting and polling would do; with DLB_NO_SYNC
      it has to poll. */
  lemma SelfSetIsSetAndPoll(s: Shared, i: nat, mask: Mask, returnStolen: bool, noSync: bool)
    requires Valid(s) && i < |s.procs| && !s.procs[i].dirty
    ensures var (t, code) := SetMask(s, i, mask, returnStolen);
      SetMaskSelf(s, i, mask, returnStolen, noSync) ==
        (if noSync || code != Success then (t, code) else (Poll(t, i, Success, NoUpdt).0, code))
  {
    SetMaskOutcome(s, i, mask, returnStolen);
    if s.procs[i].pid != NOBODY && SetNewMask(s, i, mask, returnStolen).1 == Success {
      ChangedAreTold(s, i, mask, returnStolen, i);
      SetNewMaskAllOrNothing(s, i, mask, returnStolen);
      var t := SetNewMask(s, i, mask, returnStolen).0;
      assert SlotOk(t.procs[i], t.system);
      hide SetNewMask;
      assert !t.procs[i].dirty ==> Committed(t.procs[i]) == t.procs[i];
      assert t.procs[i := t.procs[i]] == t.procs;
    }
    hide SetNewMask;
  }

  /** On a process with a pending mask, setting its own mask is refused unless it is the pending one. */
  lemma SelfSetRefused(s: Shared, i: nat, mask: Mask, returnStolen: bool, noSync: bool)
    requires i < |s.procs| && s.num <= |s.procs| && s.procs[i].pid != NOBODY && s.procs[i].dirty && mask != s.procs[i].future
    ensures SetMaskSelf(s, i, mask, returnStolen, noSync) == (s, ErrPDirty)
  {
  }
}
