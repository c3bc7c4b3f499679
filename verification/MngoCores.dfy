/** Taking whole cores out of a CPU mask, last CPU first, as MNGO does when it moves cores between processes
    (src/LB_comm/shmem_mngo.c). */
module MngoCores {
  type Mask = set<nat>

  /** Every CPU of the mask is in the node, with its whole core. The core of CPU c is core[c]. */
  ghost predicate WholeCores(core: seq<nat>, mask: Mask) {
    && (forall c :: c in mask ==> c < |core|)
    && forall c, d :: 0 <= c < |core| && 0 <= d < |core| && c in mask && core[c] == core[d] ==> d in mask
  }

  /** mu_get_last_cpu below n; n when there is none. */
  function LastBelow(mask: Mask, n: nat): (c: nat)
    ensures c <= n && (c < n ==> c in mask) && (c == n ==> forall d: nat :: d < n ==> d !in mask)
    ensures c < n ==> forall d: nat :: c < d < n ==> d !in mask
    decreases n
  {
    if n == 0 then 0
    else if n - 1 in mask then n - 1
    else
      var c := LastBelow(mask, n - 1);
      if c == n - 1 then n else c
  }

  function InCore(core: seq<nat>, mask: Mask, c: nat): Mask
    requires c < |core|
  {
    set d | d in mask && d < |core| && core[d] == core[c]
  }

  /** The cores that a mask touches. */
  function CoresOf(core: seq<nat>, mask: Mask): set<nat> {
    set c | c in mask && c < |core| :: core[c]
  }

  function Count(core: seq<nat>, mask: Mask): nat {
    |CoresOf(core, mask)|
  }

  datatype Peeled = Peeled(taken: Mask, left: Mask, missing: nat)

  /** Move up to k cores from a mask to another, one at a time; missing counts those that were not there. */
  function Peel(core: seq<nat>, from: Mask, taken: Mask, k: nat): Peeled
    decreases k
  {
    if k == 0 then Peeled(taken, from, 0)
    else
      var c := LastBelow(from, |core|);
      if c == |core| then Peeled(taken, from, k)
      else
        var group := InCore(core, from, c);
        Peel(core, from - group, taken + group, k - 1)
  }

  // ---------------------------------------------------------------- cores as sets

  lemma CoreIn(core: seq<nat>, mask: Mask, k: nat)
    ensures k in CoresOf(core, mask) <==> exists c :: c in mask && c < |core| && core[c] == k
  {
  }

  /** Removing the CPUs of one core removes that core from the count, and nothing else. */
  lemma OneCoreLess(core: seq<nat>, mask: Mask, c: nat)
    requires WholeCores(core, mask) && c in mask
    ensures c < |core|
    ensures var rest := mask - InCore(core, mask, c);
      WholeCores(core, rest) && CoresOf(core, rest) == CoresOf(core, mask) - {core[c]} && Count(core, rest) == Count(core, mask) - 1
  {
    var rest := mask - InCore(core, mask, c);
    assert core[c] in CoresOf(core, mask);
    forall k ensures k in CoresOf(core, rest) <==> k in CoresOf(core, mask) && k != core[c] {
      if k in CoresOf(core, mask) && k != core[c] {
        var d :| d in mask && d < |core| && core[d] == k;
        assert d in rest;
      }
    }
    assert CoresOf(core, rest) == CoresOf(core, mask) - {core[c]};
  }

  /** Adding a whole core that the mask did not touch. */
  lemma OneCoreMore(core: seq<nat>, mask: Mask, group: Mask, c: nat)
    requires WholeCores(core, mask) && WholeCores(core, group) && c < |core| && c in group && mask !! group
    requires forall d :: d in group ==> core[d] == core[c]
    ensures WholeCores(core, mask + group) && Count(core, mask + group) == Count(core, mask) + 1
  {
    assert core[c] !in CoresOf(core, mask);
    assert CoresOf(core, mask + group) == CoresOf(core, mask) + {core[c]} by {
      forall k ensures k in CoresOf(core, mask + group) <==> k in CoresOf(core, mask) || k == core[c] {
        if k in CoresOf(core, mask) {
          var d :| d in mask && d < |core| && core[d] == k;
          assert d in mask + group;
        }
        assert c in mask + group;
      }
    }
  }

  lemma GroupIsWhole(core: seq<nat>, mask: Mask, c: nat)
    requires WholeCores(core, mask) && c in mask
    ensures c < |core| && WholeCores(core, InCore(core, mask, c)) && c in InCore(core, mask, c)
  {
  }

  lemma NoCores(core: seq<nat>, mask: Mask)
    requires WholeCores(core, mask)
    ensures Count(core, mask) == 0 <==> mask == {}
  {
    if c :| c in mask {
      assert core[c] in CoresOf(core, mask);
    } else {
      assert CoresOf(core, mask) == {};
    }
  }

  /** Disjoint masks of whole cores add up. */
  lemma {:induction false} CountAdds(core: seq<nat>, a: Mask, b: Mask)
    requires WholeCores(core, a) && WholeCores(core, b) && a !! b
    ensures WholeCores(core, a + b) && Count(core, a + b) == Count(core, a) + Count(core, b)
  {
    assert CoresOf(core, a) !! CoresOf(core, b);
    assert CoresOf(core, a + b) == CoresOf(core, a) + CoresOf(core, b) by {
      forall k ensures k in CoresOf(core, a + b) <==> k in CoresOf(core, a) || k in CoresOf(core, b) {
        CoreIn(core, a, k);
        CoreIn(core, b, k);
        CoreIn(core, a + b, k);
        if k in CoresOf(core, a) {
          var c :| c in a && c < |core| && core[c] == k;
          assert c in a + b;
        }
        if k in CoresOf(core, b) {
          var c :| c in b && c < |core| && core[c] == k;
          assert c in a + b;
        }
      }
    }
  }

  // ---------------------------------------------------------------- peeling

  /** Peeling k cores splits the mask in two masks of whole cores, moves exactly k cores if there are that
      many, and reports what is missing otherwise. */
  lemma {:induction false} PeelSplits(core: seq<nat>, from: Mask, taken: Mask, k: nat)
    requires WholeCores(core, from) && WholeCores(core, taken) && from !! taken
    ensures var p := Peel(core, from, taken, k);
      && WholeCores(core, p.taken) && WholeCores(core, p.left) && p.taken !! p.left
      && p.taken + p.left == from + taken && taken <= p.taken
      && p.missing == (if k <= Count(core, from) then 0 else k - Count(core, from))
      && Count(core, p.left) == Count(core, from) - (k - p.missing)
      && Count(core, p.taken) == Count(core, taken) + (k - p.missing)
    decreases k
  {
    hide CoresOf, Count;
    if k > 0 {
      var c := LastBelow(from, |core|);
      if c == |core| {
        assert from == {};
        NoCores(core, from);
      } else {
        var group := InCore(core, from, c);
        GroupIsWhole(core, from, c);
        OneCoreLess(core, from, c);
        OneCoreMore(core, taken, group, c);
        hide WholeCores, LastBelow;
        PeelSplits(core, from - group, taken + group, k - 1);
        assert (from - group) + (taken + group) == from + taken;
      }
    }
  }

  lemma PeelFromScratch(core: seq<nat>, from: Mask, k: nat)
    requires WholeCores(core, from)
    ensures var p := Peel(core, from, {}, k);
      && WholeCores(core, p.taken) && WholeCores(core, p.left) && p.taken !! p.left && p.taken + p.left == from
      && p.missing == (if k <= Count(core, from) then 0 else k - Count(core, from))
      && Count(core, p.left) == Count(core, from) - (k - p.missing)
      && Count(core, p.taken) == k - p.missing
  {
    hide Peel, CoresOf, Count;
    PeelSplits(core, from, {}, k);
    NoCores(core, {});
  }
}
