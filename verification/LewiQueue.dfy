/** The queue of pending LeWI requests (src/support/queues.c): a packed list of
    pairs (pid, howmany) in which pid is a unique key. The same structure holds the
    surplus of every victim while CPUs are being reclaimed. */
module LewiQueue {
  import opened Codes

  datatype Request = Request(pid: nat, howmany: nat)

  /** One position of the C array stays reserved, so this is the usable capacity. */
  const QUEUE_CAPACITY := 255

  // ---------------------------------------------------------------- vocabulary

  /** What pid has pending in q. */
  function Amount(q: seq<Request>, pid: nat): nat {
    if q == [] then 0
    else
      var last := q[|q| - 1];
      Amount(q[..|q| - 1], pid) + if last.pid == pid then last.howmany else 0
  }

  function Total(q: seq<Request>): nat {
    if q == [] then 0 else Total(q[..|q| - 1]) + q[|q| - 1].howmany
  }

  ghost predicate Keyed(q: seq<Request>) {
    forall i, j :: 0 <= i < j < |q| ==> q[i].pid != q[j].pid
  }

  ghost predicate Positive(q: seq<Request>) {
    forall i :: 0 <= i < |q| ==> q[i].howmany > 0
  }

  ghost predicate Named(q: seq<Request>) {
    forall i :: 0 <= i < |q| ==> q[i].pid != NOBODY
  }

  /** The representation invariant documented at src/support/queues.h:29-31. */
  ghost predicate Packed(q: seq<Request>) {
    Keyed(q) && Positive(q) && Named(q) && |q| <= QUEUE_CAPACITY
  }

  ghost predicate Descending(q: seq<Request>) {
    forall i, j :: 0 <= i < j < |q| ==> q[i].howmany >= q[j].howmany
  }

  function Pids(q: seq<Request>): set<nat> {
    set i | 0 <= i < |q| :: q[i].pid
  }

  lemma {:induction false} AmountConcat(a: seq<Request>, b: seq<Request>, pid: nat)
    ensures Amount(a + b, pid) == Amount(a, pid) + Amount(b, pid)
    ensures Total(a + b) == Total(a) + Total(b)
  {
    if b == [] {
      assert a + b == a;
    } else {
      AmountConcat(a, b[..|b| - 1], pid);
      assert (a + b)[..|a + b| - 1] == a + b[..|b| - 1];
    }
  }

  lemma AmountSingle(r: Request, pid: nat)
    ensures Amount([r], pid) == if r.pid == pid then r.howmany else 0
    ensures Total([r]) == r.howmany
  {
    assert [r][..0] == [];
  }

  lemma {:induction false} AmountAt(q: seq<Request>, i: nat)
    requires Keyed(q) && i < |q|
    ensures Amount(q, q[i].pid) == q[i].howmany
  {
    var last := |q| - 1;
    if i == last {
      AmountAbsent(q[..last], q[i].pid);
    } else {
      AmountAt(q[..last], i);
    }
  }

  lemma {:induction false} AmountAbsent(q: seq<Request>, pid: nat)
    requires pid !in Pids(q)
    ensures Amount(q, pid) == 0
  {
    if q != [] {
      var last := |q| - 1;
      assert q[last].pid in Pids(q);
      assert forall i :: 0 <= i < last ==> q[..last][i].pid in Pids(q);
      AmountAbsent(q[..last], pid);
    }
  }

  lemma {:induction false} AmountPositive(q: seq<Request>, pid: nat)
    requires Positive(q)
    ensures Amount(q, pid) > 0 <==> pid in Pids(q)
  {
    if q != [] {
      var last := |q| - 1;
      AmountPositive(q[..last], pid);
      assert q[last].pid in Pids(q);
      if pid in Pids(q) && q[last].pid != pid {
        var i :| 0 <= i < |q| && q[i].pid == pid;
        assert q[..last][i].pid == pid;
      }
      if pid in Pids(q[..last]) {
        var i :| 0 <= i < last && q[..last][i].pid == pid;
        assert q[i].pid == pid;
      }
    }
  }

  lemma {:induction false} AmountAtMostTotal(q: seq<Request>, pid: nat)
    ensures Amount(q, pid) <= Total(q)
  {
    if q != [] {
      AmountAtMostTotal(q[..|q| - 1], pid);
    }
  }

  // ---------------------------------------------------------------- remove

  function IndexOf(q: seq<Request>, pid: nat): (i: nat)
    ensures i <= |q|
    ensures forall k :: 0 <= k < i ==> q[k].pid != pid
    ensures i < |q| ==> q[i].pid == pid
  {
    if q == [] then 0
    else
      var i := IndexOf(q[..|q| - 1], pid);
      assert forall k :: 0 <= k < i ==> q[..|q| - 1][k] == q[k];
      if i < |q| - 1 || q[|q| - 1].pid == pid then i else |q|
  }

  /** queue_lewi_reqs_remove: the last entry takes the place of the removed one. */
  function Remove(q: seq<Request>, pid: nat): seq<Request> {
    var i := IndexOf(q, pid);
    if pid == NOBODY || i == |q| then q else q[i := q[|q| - 1]][..|q| - 1]
  }

  lemma RemoveForgets(q: seq<Request>, pid: nat)
    requires Packed(q) && pid != NOBODY
    ensures Packed(Remove(q, pid))
    ensures Pids(Remove(q, pid)) == Pids(q) - {pid}
    ensures forall p :: Amount(Remove(q, pid), p) == if p == pid then 0 else Amount(q, p)
  {
    var r := Remove(q, pid);
    RemovePids(q, pid);
    forall p ensures Amount(r, p) == if p == pid then 0 else Amount(q, p) {
      if p in Pids(r) {
        var j :| 0 <= j < |r| && r[j].pid == p;
        AmountAt(r, j);
        var k :| 0 <= k < |q| && q[k] == r[j];
        AmountAt(q, k);
      } else {
        AmountAbsent(r, p);
        if p != pid { AmountAbsent(q, p); }
      }
    }
  }

  lemma RemovePids(q: seq<Request>, pid: nat)
    requires Packed(q) && pid != NOBODY
    ensures Packed(Remove(q, pid))
    ensures Pids(Remove(q, pid)) == Pids(q) - {pid}
    ensures forall j :: 0 <= j < |Remove(q, pid)| ==> Remove(q, pid)[j] in q
  {
    var r, i := Remove(q, pid), IndexOf(q, pid);
    forall p | p in Pids(q) && p != pid ensures p in Pids(r) {
      var k :| 0 <= k < |q| && q[k].pid == p;
      if i < |q| {
        assert r[if k == |q| - 1 then i else k].pid == p;
      } else {
        assert r[k].pid == p;
      }
    }
    if i < |q| {
      forall k | 0 <= k < |r| ensures r[k].pid != pid && r[k].pid in Pids(q) && r[k] in q {
        assert r[k] == q[if k == i then |q| - 1 else k];
      }
    }
  }

  method QueueRemove(q: seq<Request>, pid: nat) returns (r: seq<Request>, howmany: nat)
    requires Packed(q)
    ensures r == Remove(q, pid)
    ensures pid != NOBODY ==> howmany == Amount(q, pid)
  {
    if pid == NOBODY { return q, 0; }
    if |q| == 0 { return q, 0; }
    var i := 0;
    while i < |q|
      invariant 0 <= i <= |q|
      invariant forall k :: 0 <= k < i ==> q[k].pid != pid
    {
      if q[i].pid == pid {
        howmany := q[i].howmany;
        r := q;
        if i + 1 < |q| {
          r := r[i := q[|q| - 1]];
        }
        r := r[..|q| - 1];
        AmountAt(q, i);
        assert r == q[i := q[|q| - 1]][..|q| - 1];
        return;
      }
      i := i + 1;
    }
    AmountAbsent(q, pid);
    return q, 0;
  }

  // ---------------------------------------------------------------- push

  /** queue_lewi_reqs_push: add to an existing entry, or append while there is room. */
  function Push(q: seq<Request>, pid: nat, howmany: nat): (seq<Request>, Code) {
    if pid == NOBODY then (q, NoUpdt)
    else if howmany == 0 then (Remove(q, pid), Success)
    else
      var i := IndexOf(q, pid);
      if i < |q| then (q[i := Request(pid, q[i].howmany + howmany)], Success)
      else if |q| == QUEUE_CAPACITY then (q, ErrReqst)
      else (q + [Request(pid, howmany)], Success)
  }

  /** There is room for pid exactly when it is already queued or the queue is not full. */
  predicate HasRoom(q: seq<Request>, pid: nat) {
    pid in Pids(q) || |q| < QUEUE_CAPACITY
  }

  lemma PushAdds(q: seq<Request>, pid: nat, howmany: nat)
    requires Packed(q) && pid != NOBODY && howmany > 0
    ensures Packed(Push(q, pid, howmany).0)
    ensures Push(q, pid, howmany).1 == Success <==> HasRoom(q, pid)
    ensures HasRoom(q, pid) ==> Pids(Push(q, pid, howmany).0) == Pids(q) + {pid}
    ensures HasRoom(q, pid) ==> forall p ::
              Amount(Push(q, pid, howmany).0, p) == Amount(q, p) + if p == pid then howmany else 0
    ensures !HasRoom(q, pid) ==> Push(q, pid, howmany).0 == q
  {
    hide Amount, Remove;
    var i := IndexOf(q, pid);
    if i < |q| {
      assert q[i].pid in Pids(q);
      RaiseEntry(q, i, howmany);
    } else {
      assert pid !in Pids(q);
      AppendEntry(q, Request(pid, howmany));
    }
  }

  lemma RaiseEntry(q: seq<Request>, i: nat, howmany: nat)
    requires Packed(q) && i < |q|
    ensures var r := q[i := Request(q[i].pid, q[i].howmany + howmany)];
            && Packed(r) && Pids(r) == Pids(q)
            && forall p :: Amount(r, p) == Amount(q, p) + if p == q[i].pid then howmany else 0
  {
    hide Amount;
    var r := q[i := Request(q[i].pid, q[i].howmany + howmany)];
    assert forall k :: 0 <= k < |q| ==> r[k].pid == q[k].pid;
    assert Pids(r) == Pids(q);
    forall p ensures Amount(r, p) == Amount(q, p) + if p == q[i].pid then howmany else 0 {
      if p in Pids(q) {
        var k :| 0 <= k < |q| && q[k].pid == p;
        AmountAt(q, k);
        AmountAt(r, k);
      } else {
        AmountAbsent(q, p);
        AmountAbsent(r, p);
      }
    }
  }

  lemma AppendEntry(q: seq<Request>, x: Request)
    requires Keyed(q) && Positive(q) && Named(q) && x.pid !in Pids(q) && x.pid != NOBODY && x.howmany > 0
    ensures var r := q + [x];
            && Keyed(r) && Positive(r) && Named(r) && Pids(r) == Pids(q) + {x.pid}
            && forall p :: Amount(r, p) == Amount(q, p) + if p == x.pid then x.howmany else 0
  {
    hide Amount;
    var r := q + [x];
    assert r[|q|] == x;
    assert forall k :: 0 <= k < |q| ==> r[k] == q[k] && q[k].pid in Pids(q);
    forall p | p in Pids(q) ensures p in Pids(r) {
      var k :| 0 <= k < |q| && q[k].pid == p;
      assert r[k].pid == p;
    }
    forall p ensures Amount(r, p) == Amount(q, p) + if p == x.pid then x.howmany else 0 {
      AmountConcat(q, [x], p);
      AmountSingle(x, p);
    }
  }

  method QueuePush(q: seq<Request>, pid: nat, howmany: nat) returns (r: seq<Request>, code: Code)
    requires Packed(q)
    ensures (r, code) == Push(q, pid, howmany)
  {
    if pid == NOBODY { return q, NoUpdt; }
    if howmany == 0 {
      var ignored;
      r, ignored := QueueRemove(q, pid);
      return r, Success;
    }
    var i := 0;
    while i < |q|
      invariant 0 <= i <= |q|
      invariant forall k :: 0 <= k < i ==> q[k].pid != pid
    {
      if q[i].pid == pid {
        return q[i := Request(pid, q[i].howmany + howmany)], Success;
      }
      i := i + 1;
    }
    if |q| == QUEUE_CAPACITY { return q, ErrReqst; }
    return q + [Request(pid, howmany)], Success;
  }

  // ---------------------------------------------------------------- sort

  function Insert(q: seq<Request>, x: Request): (r: seq<Request>)
    ensures |r| == |q| + 1
  {
    if q == [] || q[|q| - 1].howmany >= x.howmany then q + [x]
    else Insert(q[..|q| - 1], x) + [q[|q| - 1]]
  }

  /** qsort by descending howmany; entries that tie keep their order. */
  function Sorted(q: seq<Request>): (r: seq<Request>)
    ensures |r| == |q|
  {
    if q == [] then [] else Insert(Sorted(q[..|q| - 1]), q[|q| - 1])
  }

  lemma {:induction false} InsertAmount(q: seq<Request>, x: Request, p: nat)
    ensures Amount(Insert(q, x), p) == Amount(q, p) + if p == x.pid then x.howmany else 0
    ensures Total(Insert(q, x)) == Total(q) + x.howmany
  {
    var last := |q| - 1;
    if q == [] || q[last].howmany >= x.howmany {
      AmountConcat(q, [x], p);
      AmountSingle(x, p);
    } else {
      InsertAmount(q[..last], x, p);
      AmountConcat(Insert(q[..last], x), [q[last]], p);
      AmountSingle(q[last], p);
    }
  }

  lemma {:induction false} InsertMembers(q: seq<Request>, x: Request)
    ensures forall i :: 0 <= i < |q| + 1 ==> Insert(q, x)[i] == x || Insert(q, x)[i] in q
  {
    var last := |q| - 1;
    if q != [] && q[last].howmany < x.howmany {
      InsertMembers(q[..last], x);
    }
  }

  lemma {:induction false} InsertOrdered(q: seq<Request>, x: Request)
    requires Descending(q) && Keyed(q) && forall i :: 0 <= i < |q| ==> q[i].pid != x.pid
    ensures Descending(Insert(q, x)) && Keyed(Insert(q, x))
  {
    var last := |q| - 1;
    if q != [] && q[last].howmany < x.howmany {
      InsertOrdered(q[..last], x);
      InsertMembers(q[..last], x);
      var r := Insert(q[..last], x);
      forall i | 0 <= i < |r| ensures r[i].howmany >= q[last].howmany && r[i].pid != q[last].pid {
        if r[i] != x {
          var j :| 0 <= j < last && q[j] == r[i];
        }
      }
    }
  }

  lemma {:induction false} SortedMembers(q: seq<Request>)
    ensures forall i :: 0 <= i < |q| ==> Sorted(q)[i] in q
  {
    if q != [] {
      SortedMembers(q[..|q| - 1]);
      InsertMembers(Sorted(q[..|q| - 1]), q[|q| - 1]);
    }
  }

  lemma {:induction false} SortedAmount(q: seq<Request>, p: nat)
    ensures Amount(Sorted(q), p) == Amount(q, p)
    ensures Total(Sorted(q)) == Total(q)
  {
    if q != [] {
      SortedAmount(q[..|q| - 1], p);
      InsertAmount(Sorted(q[..|q| - 1]), q[|q| - 1], p);
    }
  }

  lemma {:induction false} SortedOrdered(q: seq<Request>)
    requires Keyed(q)
    ensures Descending(Sorted(q)) && Keyed(Sorted(q))
  {
    if q != [] {
      var a, b := q[..|q| - 1], q[|q| - 1];
      SortedOrdered(a);
      SortedMembers(a);
      forall i | 0 <= i < |a| ensures Sorted(a)[i].pid != b.pid {
        var j :| 0 <= j < |a| && a[j] == Sorted(a)[i];
      }
      InsertOrdered(Sorted(a), b);
    }
  }

  method SortRequests(q: seq<Request>) returns (r: seq<Request>)
    ensures r == Sorted(q)
  {
    r := [];
    var i := 0;
    while i < |q|
      invariant 0 <= i <= |q|
      invariant r == Sorted(q[..i])
    {
      assert q[..i + 1][..i] == q[..i];
      r := Insert(r, q[i]);
      i := i + 1;
    }
    assert q[..|q|] == q;
  }
}
