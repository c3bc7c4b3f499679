/** queue_lewi_reqs_pop_ncpus (src/support/queues.c:126-170): hand out CPUs evenly
    among the queued requests, smallest request first. */
module LewiPop {
  import opened Codes
  import opened LewiQueue

  /** Integer division of the even share, n / m. */
  function Quotient(n: nat, m: nat): (w: nat)
    requires m > 0
    ensures w <= n && (w > 0 <==> n >= m)
    ensures n >= m ==> n - w >= m - 1
  {
    if n < m then 0 else 1 + Quotient(n - m, m)
  }

  function Share(n: nat, m: nat, wanted: nat): (k: nat)
    requires m > 0
    ensures k <= n && k <= wanted
    ensures k > 0 <==> n >= m && wanted > 0
    ensures k > 0 ==> n - k >= m - 1
  {
    Min(Quotient(n, m), wanted)
  }

  function Reduced(q: seq<Request>, i: nat, k: nat): (r: seq<Request>)
    requires i < |q| && k <= q[i].howmany
    ensures |r| == |q|
  {
    q[i := Request(q[i].pid, q[i].howmany - k)]
  }

  function Written(out: seq<Request>, pid: nat, k: nat): (r: seq<Request>)
    ensures |r| == |out| + if k > 0 then 1 else 0
  {
    if k > 0 then out + [Request(pid, k)] else out
  }

  datatype Popped = Popped(left: seq<Request>, out: seq<Request>, rest: nat)

  /** The distribution loop: position i - 1 is served next, out is what was written so far. */
  function Serve(left: seq<Request>, i: nat, n: nat, max: nat, out: seq<Request>): (r: Popped)
    requires i <= |left|
    ensures |r.left| == |left|
    decreases i
  {
    if i == 0 || n == 0 || |out| >= max then Popped(left, out, n)
    else
      var e := left[i - 1];
      var k := Share(n, i, e.howmany);
      Serve(Reduced(left, i - 1, k), i - 1, n - k, max,
            Written(out, e.pid, k))
  }

  /** queue_lewi_reqs_pack: drop the entries that reached zero. */
  function Pack(q: seq<Request>): (r: seq<Request>)
    ensures |r| <= |q|
  {
    if q == [] then []
    else if q[|q| - 1].howmany > 0 then Pack(q[..|q| - 1]) + [q[|q| - 1]]
    else Pack(q[..|q| - 1])
  }

  function Pop(q: seq<Request>, n: nat, max: nat): Popped {
    if q == [] then Popped([], [], n)
    else
      var r := Serve(Sorted(q), |q|, n, max, []);
      Popped(Pack(r.left), r.out, r.rest)
  }

  // ---------------------------------------------------------------- arithmetic of one share

  lemma {:induction false} QuotientIsDivision(n: nat, m: nat)
    requires m > 0
    ensures Quotient(n, m) == n / m
  {
    hide Quotient, Times;
    QuotientBounds(n, m);
    var w := Quotient(n, m);
    TimesIsProduct(m, w);
    TimesSucc(m, w);
    DivisionUnique(m, n / m, n % m, w, n - m * w);
  }

  lemma DivisionUnique(m: nat, a: nat, b: nat, q: nat, r: nat)
    requires m > 0 && b < m && r < m && m * a + b == m * q + r
    ensures a == q
  {
    if a > q {
      ProductAtLeast(m, a, q);
    } else if a < q {
      ProductAtLeast(m, q, a);
    }
  }

  lemma ProductAtLeast(m: nat, x: nat, y: nat)
    requires x > y
    ensures m * x >= m * y + m
  {
    assert m * x == m * y + m * (x - y);
    assert m * (x - y) == m * (x - y - 1) + m;
  }

  lemma {:induction false} TimesIsProduct(m: nat, v: nat)
    ensures Times(m, v) == m * v
  {
    if m > 0 {
      TimesIsProduct(m - 1, v);
      assert m * v == (m - 1) * v + v;
    }
  }

  ghost function Times(m: nat, v: nat): nat {
    if m == 0 then 0 else v + Times(m - 1, v)
  }

  lemma {:induction false} TimesSucc(m: nat, v: nat)
    ensures Times(m, v + 1) == Times(m, v) + m
  {
    if m > 0 { TimesSucc(m - 1, v); }
  }

  lemma {:induction false} TimesMonotone(m: nat, v: nat, w: nat)
    requires v <= w
    ensures Times(m, v) <= Times(m, w)
  {
    if m > 0 { TimesMonotone(m - 1, v, w); }
  }

  lemma {:induction false} QuotientBounds(n: nat, m: nat)
    requires m > 0
    ensures Times(m, Quotient(n, m)) <= n < Times(m, Quotient(n, m) + 1)
  {
    TimesSucc(m, Quotient(n, m));
    if n < m {
      TimesZero(m);
    } else {
      QuotientBounds(n - m, m);
      TimesSucc(m, Quotient(n - m, m));
    }
  }

  lemma {:induction false} TimesZero(m: nat)
    ensures Times(m, 0) == 0
  {
    if m > 0 { TimesZero(m - 1); }
  }

  lemma {:induction false} TimesOne(m: nat)
    ensures Times(m, 1) == m
  {
    if m > 0 { TimesOne(m - 1); }
  }

  /** What is left for the other m - 1 requests after one even share. */
  lemma EvenShare(n: nat, m: nat)
    requires m > 0
    ensures var w := Quotient(n, m);
            && w <= n && (w > 0 <==> n >= m)
            && Times(m - 1, w) <= n - w <= Times(m - 1, w + 1)
            && n - w >= Min(n, m - 1)
  {
    var w := Quotient(n, m);
    QuotientBounds(n, m);
    TimesSucc(m - 1, w);
    if w > 0 {
      TimesMonotone(m - 1, 1, w);
      TimesOne(m - 1);
    }
  }

  /** A share taken from at least (at most) v for everybody leaves that much for the others. */
  lemma ShareBounds(n: nat, m: nat, v: nat)
    requires m > 0
    ensures n >= Times(m, v) ==> Quotient(n, m) >= v && n - Quotient(n, m) >= Times(m - 1, v)
    ensures n <= Times(m, v) ==> Quotient(n, m) <= v && n - Quotient(n, m) <= Times(m - 1, v)
  {
    var w := Quotient(n, m);
    QuotientBounds(n, m);
    EvenShare(n, m);
    if w < v {
      TimesMonotone(m, w + 1, v);
      TimesMonotone(m - 1, w + 1, v);
    } else {
      TimesMonotone(m - 1, v, w);
      if w > v {
        TimesMonotone(m, v + 1, w);
        TimesSucc(m, v);
      }
    }
  }

  // ---------------------------------------------------------------- the loop

  lemma {:induction false} ReducedAmount(q: seq<Request>, i: nat, k: nat, p: nat)
    requires i < |q| && k <= q[i].howmany
    ensures Total(Reduced(q, i, k)) == Total(q) - k
    ensures Amount(Reduced(q, i, k), p)
         == Amount(q, p) - if p == q[i].pid then k else 0
  {
    var r, last := Reduced(q, i, k), |q| - 1;
    if i == last {
      assert r[..last] == q[..last];
    } else {
      ReducedAmount(q[..last], i, k, p);
      assert r[..last] == Reduced(q[..last], i, k);
    }
  }

  lemma WrittenAmount(out: seq<Request>, pid: nat, k: nat, p: nat)
    ensures Total(Written(out, pid, k)) == Total(out) + k
    ensures Amount(Written(out, pid, k), p) == Amount(out, p) + if p == pid then k else 0
  {
    AmountConcat(out, [Request(pid, k)], p);
    AmountSingle(Request(pid, k), p);
  }

  /** Requests keep their places, never grow, and change only below position i. */
  lemma {:induction false} ServeShape(left: seq<Request>, i: nat, n: nat, max: nat, out: seq<Request>)
    requires i <= |left|
    ensures var r := Serve(left, i, n, max, out).left;
            && (forall j :: 0 <= j < |left| ==> r[j].pid == left[j].pid && r[j].howmany <= left[j].howmany)
            && (forall j :: i <= j < |left| ==> r[j] == left[j])
    decreases i
  {
    hide Quotient, Share;
    if i > 0 && n > 0 && |out| < max {
      var k := Share(n, i, left[i - 1].howmany);
      ServeShape(Reduced(left, i - 1, k), i - 1, n - k, max, Written(out, left[i - 1].pid, k));
    }
  }

  /** Nothing is created or lost, request by request. */
  lemma {:induction false} ServeConserves(left: seq<Request>, i: nat, n: nat, max: nat, out: seq<Request>, p: nat)
    requires i <= |left|
    ensures var r := Serve(left, i, n, max, out);
            && Total(r.out) + r.rest == Total(out) + n
            && Total(r.left) + Total(r.out) == Total(left) + Total(out)
            && Amount(r.left, p) + Amount(r.out, p) == Amount(left, p) + Amount(out, p)
    decreases i
  {
    hide Quotient, Share, Amount, Total, Reduced, Written;
    if i > 0 && n > 0 && |out| < max {
      var e := left[i - 1];
      var k := Share(n, i, e.howmany);
      ReducedAmount(left, i - 1, k, p);
      WrittenAmount(out, e.pid, k, p);
      ServeConserves(Reduced(left, i - 1, k), i - 1, n - k, max,
                     Written(out, e.pid, k), p);
    }
  }

  /** Each key is served at most once. */
  lemma {:induction false} ServeKeys(left: seq<Request>, i: nat, n: nat, max: nat, out: seq<Request>)
    requires i <= |left| && Keyed(left) && Keyed(out) && Positive(out)
    requires forall j, o :: 0 <= j < i && 0 <= o < |out| ==> left[j].pid != out[o].pid
    ensures Keyed(Serve(left, i, n, max, out).out) && Positive(Serve(left, i, n, max, out).out)
    decreases i
  {
    hide Quotient, Share;
    if i > 0 && n > 0 && |out| < max {
      var e := left[i - 1];
      var k := Share(n, i, e.howmany);
      ServeKeys(Reduced(left, i - 1, k), i - 1, n - k, max,
                Written(out, e.pid, k));
    }
  }

  /** Exactly Min(n, i, room in the output) requests receive something. */
  lemma {:induction false} ServeCount(left: seq<Request>, i: nat, n: nat, max: nat, out: seq<Request>)
    requires i <= |left| && |out| <= max && forall j :: 0 <= j < i ==> left[j].howmany > 0
    ensures |Serve(left, i, n, max, out).out| == |out| + Min(Min(n, i), max - |out|)
    ensures Min(n, i) > max - |out| ==> Serve(left, i, n, max, out).rest > 0
    decreases i
  {
    hide Quotient, Share;
    if i > 0 && n > 0 && |out| < max {
      var e := left[i - 1];
      var k := Share(n, i, e.howmany);
      ServeCount(Reduced(left, i - 1, k), i - 1, n - k, max, Written(out, e.pid, k));
    }
  }

  ghost function TotalUpTo(q: seq<Request>, i: nat): nat
    requires i <= |q|
  {
    if i == 0 then 0 else TotalUpTo(q, i - 1) + q[i - 1].howmany
  }

  lemma {:induction false} TotalUpToIsTotal(q: seq<Request>, i: nat)
    requires i <= |q|
    ensures TotalUpTo(q, i) == Total(q[..i])
  {
    if i > 0 {
      TotalUpToIsTotal(q, i - 1);
      assert q[..i][..i - 1] == q[..i - 1];
    }
  }

  lemma {:induction false} TotalUpToSame(q: seq<Request>, r: seq<Request>, i: nat)
    requires i <= |q| && i <= |r| && forall j :: 0 <= j < i ==> q[j] == r[j]
    ensures TotalUpTo(q, i) == TotalUpTo(r, i)
  {
    if i > 0 { TotalUpToSame(q, r, i - 1); }
  }

  lemma {:induction false} TotalAtLeast(q: seq<Request>, i: nat, v: nat)
    requires i <= |q| && forall j :: 0 <= j < i ==> q[j].howmany >= v
    ensures TotalUpTo(q, i) >= Times(i, v)
  {
    if i > 0 { TotalAtLeast(q, i - 1, v); }
  }

  lemma ExhaustsNext(left: seq<Request>, i: nat, n: nat)
    requires 0 < i <= |left| && Ranked(left, i) && n <= TotalUpTo(left, i)
    ensures n - Share(n, i, left[i - 1].howmany) <= TotalUpTo(left, i - 1)
  {
    var k := Share(n, i, left[i - 1].howmany);
    if k < left[i - 1].howmany {
      EvenShare(n, i);
      TotalAtLeast(left, i - 1, k + 1);
    }
  }

  /** With room in the output, CPUs are left over only when every request is served. */
  lemma {:induction false} ServeExhausts(left: seq<Request>, i: nat, n: nat, max: nat, out: seq<Request>)
    requires i <= |left| && Ranked(left, i)
    requires n <= TotalUpTo(left, i) && Min(n, i) <= max - |out|
    ensures Serve(left, i, n, max, out).rest == 0
    decreases i
  {
    hide Quotient, Share, Ranked;
    if i > 0 && n > 0 {
      var k := Share(n, i, left[i - 1].howmany);
      var l := Reduced(left, i - 1, k);
      ExhaustsNext(left, i, n);
      RankedPrefix(left, i, k);
      TotalUpToSame(left, l, i - 1);
      ServeExhausts(l, i - 1, n - k, max, Written(out, left[i - 1].pid, k));
    }
  }

  // ---------------------------------------------------------------- evenness

  /** No request gets more than one CPU above any request that is still waiting. */
  ghost predicate Even(q: seq<Request>, left: seq<Request>, i: nat)
    requires |left| == |q| && i <= |q|
  {
    forall a, b :: 0 <= a < i && 0 <= b < i && left[a].howmany > 0 ==>
      q[b].howmany - left[b].howmany <= q[a].howmany - left[a].howmany + 1
  }

  ghost predicate Ranked(q: seq<Request>, i: nat)
    requires i <= |q|
  {
    && (forall j :: 0 <= j < i ==> q[j].howmany > 0)
    && (forall a, b :: 0 <= a < b < i ==> q[a].howmany >= q[b].howmany)
  }

  lemma {:induction false} ServeUpper(left: seq<Request>, i: nat, n: nat, max: nat, out: seq<Request>, v: nat)
    requires i <= |left| && n <= Times(i, v) && forall j :: 0 <= j < i ==> left[j].howmany >= v
    ensures forall j :: 0 <= j < i ==> left[j].howmany - Serve(left, i, n, max, out).left[j].howmany <= v
    decreases i
  {
    hide Times, Written, Quotient;
    if i > 0 && n > 0 && |out| < max {
      var e := left[i - 1];
      var k := Share(n, i, e.howmany);
      ShareBounds(n, i, v);
      ServeShape(Reduced(left, i - 1, k), i - 1, n - k, max, Written(out, e.pid, k));
      ServeUpper(Reduced(left, i - 1, k), i - 1, n - k, max,
                 Written(out, e.pid, k), v);
    }
  }

  lemma {:induction false} ServeLower(left: seq<Request>, i: nat, n: nat, max: nat, out: seq<Request>, v: nat)
    requires i <= |left| && n >= Times(i, v) && forall j :: 0 <= j < i ==> left[j].howmany > 0
    requires Min(n, i) <= max - |out|
    ensures var l := Serve(left, i, n, max, out).left;
            forall j :: 0 <= j < i && l[j].howmany > 0 ==> left[j].howmany - l[j].howmany >= v
    decreases i
  {
    hide Written, Quotient;
    if i > 0 && n > 0 {
      var e := left[i - 1];
      var k := Share(n, i, e.howmany);
      ShareBounds(n, i, v);
      TimesMonotone(i - 1, 0, v);
      ServeShape(Reduced(left, i - 1, k), i - 1, n - k, max, Written(out, e.pid, k));
      ServeLower(Reduced(left, i - 1, k), i - 1, n - k, max,
                 Written(out, e.pid, k), v);
    }
  }

  /** The share k of position i - 1 against those of the positions that follow. */
  ghost predicate Nearby(left: seq<Request>, r: seq<Request>, i: nat, k: nat)
    requires 0 < i <= |left| && |r| == |left|
  {
    forall j :: 0 <= j < i - 1 ==>
      && (r[j].howmany > 0 ==> left[j].howmany - r[j].howmany >= k)
      && (k < left[i - 1].howmany ==> left[j].howmany - r[j].howmany <= k + 1)
  }

  lemma NearbyBounds(n: nat, i: nat, wanted: nat)
    requires 0 < i
    ensures var k := Share(n, i, wanted);
            n - k >= Times(i - 1, k) && (k < wanted ==> n - k <= Times(i - 1, k + 1))
  {
    EvenShare(n, i);
    TimesMonotone(i - 1, Share(n, i, wanted), Quotient(n, i));
  }

  lemma ServeNearby(left: seq<Request>, l: seq<Request>, i: nat, n: nat, k: nat, max: nat, o: seq<Request>)
    requires 0 < i <= |left| && Ranked(left, i) && k <= n && k <= left[i - 1].howmany
    requires n - k >= Times(i - 1, k) && (k < left[i - 1].howmany ==> n - k <= Times(i - 1, k + 1))
    requires l == Reduced(left, i - 1, k) && Min(n - k, i - 1) <= max - |o|
    ensures Nearby(left, Serve(l, i - 1, n - k, max, o).left, i, k)
  {
    hide Times;
    ServeLower(l, i - 1, n - k, max, o, k);
    if k < left[i - 1].howmany {
      ServeUpper(l, i - 1, n - k, max, o, k + 1);
    }
  }

  lemma EvenExtends(left: seq<Request>, l: seq<Request>, i: nat, n: nat, k: nat, max: nat, o: seq<Request>)
    requires 0 < i <= |left| && Ranked(left, i) && k == Share(n, i, left[i - 1].howmany)
    requires l == Reduced(left, i - 1, k) && Min(n - k, i - 1) <= max - |o|
    requires Even(l, Serve(l, i - 1, n - k, max, o).left, i - 1)
    ensures Even(left, Serve(l, i - 1, n - k, max, o).left, i)
  {
    hide Times, Quotient, Share, Serve;
    var r := Serve(l, i - 1, n - k, max, o).left;
    NearbyBounds(n, i, left[i - 1].howmany);
    ServeNearby(left, l, i, n, k, max, o);
    ServeShape(l, i - 1, n - k, max, o);
    forall a, b | 0 <= a < i && 0 <= b < i && r[a].howmany > 0
      ensures left[b].howmany - r[b].howmany <= left[a].howmany - r[a].howmany + 1
    {
      assert a < i - 1 ==> l[a] == left[a];
      assert b < i - 1 ==> l[b] == left[b];
    }
  }

  lemma RankedPrefix(left: seq<Request>, i: nat, k: nat)
    requires 0 < i <= |left| && Ranked(left, i) && k <= left[i - 1].howmany
    ensures Ranked(Reduced(left, i - 1, k), i - 1)
  {
  }

  lemma {:induction false} ServeEven(left: seq<Request>, i: nat, n: nat, max: nat, out: seq<Request>)
    requires i <= |left| && Min(n, i) <= max - |out| && Ranked(left, i)
    ensures Even(left, Serve(left, i, n, max, out).left, i)
    decreases i
  {
    if i > 0 && n > 0 {
      hide Quotient, Share, Even;
      var k := Share(n, i, left[i - 1].howmany);
      var l, o := Reduced(left, i - 1, k), Written(out, left[i - 1].pid, k);
      assert Ranked(l, i - 1) by { RankedPrefix(left, i, k); }
      ServeEven(l, i - 1, n - k, max, o);
      EvenExtends(left, l, i, n, k, max, o);
    }
  }

  lemma DrainsNext(left: seq<Request>, i: nat, n: nat)
    requires 0 < i <= |left| && Ranked(left, i) && n >= TotalUpTo(left, i)
    ensures Share(n, i, left[i - 1].howmany) == left[i - 1].howmany > 0
  {
    TotalAtLeast(left, i, left[i - 1].howmany);
    ShareBounds(n, i, left[i - 1].howmany);
  }

  /** Asking for more than everything serves everything. */
  lemma {:induction false} ServeDrains(left: seq<Request>, i: nat, n: nat, max: nat, out: seq<Request>)
    requires i <= |left| && Ranked(left, i)
    requires n >= TotalUpTo(left, i) && Min(n, i) <= max - |out|
    ensures forall j :: 0 <= j < i ==> Serve(left, i, n, max, out).left[j].howmany == 0
    decreases i
  {
    hide Quotient, Share, Times;
    if i > 0 {
      var k := Share(n, i, left[i - 1].howmany);
      DrainsNext(left, i, n);
      var l, o := Reduced(left, i - 1, k), Written(out, left[i - 1].pid, k);
      TotalUpToSame(left, l, i - 1);
      ServeShape(l, i - 1, n - k, max, o);
      ServeDrains(l, i - 1, n - k, max, o);
    }
  }

  // ---------------------------------------------------------------- the whole operation

  lemma {:induction false} PackAmount(q: seq<Request>, p: nat)
    ensures Amount(Pack(q), p) == Amount(q, p) && Total(Pack(q)) == Total(q)
  {
    if q != [] {
      var a, last := q[..|q| - 1], q[|q| - 1];
      PackAmount(a, p);
      if last.howmany > 0 {
        hide Pack;
        AmountConcat(Pack(a), [last], p);
        AmountSingle(last, p);
      }
    }
  }

  lemma {:induction false} PackMembers(q: seq<Request>)
    ensures forall i :: 0 <= i < |Pack(q)| ==> Pack(q)[i] in q && Pack(q)[i].howmany > 0
  {
    if q != [] { PackMembers(q[..|q| - 1]); }
  }

  lemma {:induction false} PackKeyed(q: seq<Request>)
    requires Keyed(q)
    ensures Keyed(Pack(q))
  {
    if q != [] {
      var a, last := q[..|q| - 1], q[|q| - 1];
      PackKeyed(a);
      PackMembers(a);
      forall i | 0 <= i < |Pack(a)| ensures Pack(a)[i].pid != last.pid {
        var j :| 0 <= j < |a| && a[j] == Pack(a)[i];
      }
    }
  }

  lemma SortedPids(q: seq<Request>)
    ensures Pids(Sorted(q)) <= Pids(q)
    ensures Named(q) ==> NOBODY !in Pids(q)
  {
    SortedMembers(q);
    forall i | 0 <= i < |q| ensures Sorted(q)[i].pid in Pids(q) {
      var j :| 0 <= j < |q| && q[j] == Sorted(q)[i];
    }
  }

  /** The contract of a pop: what every caller relies on. */
  ghost predicate PopContract(q: seq<Request>, n: nat, max: nat, r: Popped) {
    && Packed(r.left) && Keyed(r.out) && Positive(r.out) && |r.out| <= max
    && Pids(r.left) <= Pids(q) && Pids(r.out) <= Pids(q)
    && Total(r.out) + r.rest == n
    && (forall p :: Amount(r.left, p) + Amount(r.out, p) == Amount(q, p))
    && |r.out| == Min(Min(n, |q|), max)
    && (r.rest == 0 <==> n <= Total(q) && Min(n, |q|) <= max)
    && (r.rest > 0 && Min(n, |q|) <= max ==> r.left == [])
  }

  lemma ServeSettles(s: seq<Request>, n: nat, max: nat)
    requires Ranked(s, |s|)
    ensures var r := Serve(s, |s|, n, max, []);
            && (r.rest == 0 <==> n <= Total(s) && Min(n, |s|) <= max)
            && (r.rest > 0 && Min(n, |s|) <= max ==> forall j :: 0 <= j < |s| ==> r.left[j].howmany == 0)
  {
    TotalUpToIsTotal(s, |s|);
    assert s[..|s|] == s;
    if Min(n, |s|) > max {
      ServeCount(s, |s|, n, max, []);
    } else if n <= Total(s) {
      ServeExhausts(s, |s|, n, max, []);
    } else {
      ServeDrains(s, |s|, n, max, []);
      ServeConserves(s, |s|, n, max, [], 0);
    }
  }

  lemma PopLeavesNothingIdle(q: seq<Request>, n: nat, max: nat)
    requires Packed(q)
    ensures var r := Pop(q, n, max);
            && (r.rest == 0 <==> n <= Total(q) && Min(n, |q|) <= max)
            && (r.rest > 0 && Min(n, |q|) <= max ==> r.left == [])
  {
    if q != [] {
      var s := Sorted(q);
      SortedRanked(q);
      SortedAmount(q, 0);
      ServeSettles(s, n, max);
      if n > Total(q) && Min(n, |q|) <= max {
        PackDrops(Serve(s, |s|, n, max, []).left);
      }
    }
  }

  lemma SortedRanked(q: seq<Request>)
    requires Keyed(q) && Positive(q)
    ensures Ranked(Sorted(q), |q|)
  {
    SortedOrdered(q);
    SortedPositive(q);
  }

  lemma {:induction false} PackDrops(q: seq<Request>)
    requires forall i :: 0 <= i < |q| ==> q[i].howmany == 0
    ensures Pack(q) == []
  {
    if q != [] { PackDrops(q[..|q| - 1]); }
  }

  lemma SortedPositive(q: seq<Request>)
    requires Positive(q)
    ensures Positive(Sorted(q))
  {
    SortedMembers(q);
    forall i | 0 <= i < |q| ensures Sorted(q)[i].howmany > 0 {
      var j :| 0 <= j < |q| && q[j] == Sorted(q)[i];
    }
  }

  lemma PopKeys(q: seq<Request>, n: nat, max: nat)
    requires Packed(q)
    ensures var r := Pop(q, n, max); Packed(r.left) && Keyed(r.out) && Positive(r.out)
  {
    if q != [] {
      var s := Sorted(q);
      SortedOrdered(q);
      SortedPids(q);
      ServeKeys(s, |s|, n, max, []);
      ServeShape(s, |s|, n, max, []);
      var l := Serve(s, |s|, n, max, []).left;
      PackKeyed(l);
      PackMembers(l);
      forall i | 0 <= i < |Pack(l)| ensures Pack(l)[i].pid != NOBODY {
        var j :| 0 <= j < |l| && l[j] == Pack(l)[i];
        assert s[j].pid in Pids(s);
      }
    }
  }

  lemma PopAmounts(q: seq<Request>, n: nat, max: nat, p: nat)
    requires Packed(q)
    ensures var r := Pop(q, n, max);
            && Total(r.out) + r.rest == n
            && Amount(r.left, p) + Amount(r.out, p) == Amount(q, p)
  {
    if q != [] {
      var s := Sorted(q);
      SortedAmount(q, p);
      ServeConserves(s, |s|, n, max, [], p);
      PackAmount(Serve(s, |s|, n, max, []).left, p);
    }
  }

  lemma PopMeetsContract(q: seq<Request>, n: nat, max: nat)
    requires Packed(q)
    ensures PopContract(q, n, max, Pop(q, n, max))
  {
    var r := Pop(q, n, max);
    PopLeavesNothingIdle(q, n, max);
    PopKeys(q, n, max);
    forall p ensures Amount(r.left, p) + Amount(r.out, p) == Amount(q, p) {
      PopAmounts(q, n, max, p);
    }
    PopAmounts(q, n, max, 0);
    if q != [] {
      SortedPositive(q);
      ServeCount(Sorted(q), |q|, n, max, []);
    }
    forall p | p in Pids(r.left) || p in Pids(r.out) ensures p in Pids(q) {
      AmountPositive(r.left, p);
      AmountPositive(r.out, p);
      AmountPositive(q, p);
    }
  }

  /** Even distribution: when the output has room, a request that is not fully served
      is at most one CPU behind every other request. */
  lemma PopIsEven(q: seq<Request>, n: nat, max: nat, a: nat, b: nat)
    requires Packed(q) && Min(n, |q|) <= max
    requires Amount(Pop(q, n, max).left, a) > 0
    ensures Amount(Pop(q, n, max).out, b) <= Amount(Pop(q, n, max).out, a) + 1
  {
    hide Serve, Sorted, Pack, Descending;
    var s := Sorted(q);
    var l := Serve(s, |s|, n, max, []).left;
    SortedOrdered(q);
    SortedRanked(q);
    ServeEven(s, |s|, n, max, []);
    PackAmount(l, a);
    var i := ServedAt(s, n, max, a);
    if b in Pids(s) {
      var j := ServedAt(s, n, max, b);
    } else {
      AmountAbsent(s, b);
      ServeConserves(s, |s|, n, max, [], b);
    }
  }

  lemma ServedAt(s: seq<Request>, n: nat, max: nat, p: nat) returns (i: nat)
    requires Keyed(s)
    requires Amount(Serve(s, |s|, n, max, []).left, p) > 0 || p in Pids(s)
    ensures i < |s| && s[i].pid == p
    ensures var r := Serve(s, |s|, n, max, []);
            && Amount(r.left, p) == r.left[i].howmany
            && Amount(r.out, p) == s[i].howmany - r.left[i].howmany
  {
    hide Serve;
    var r := Serve(s, |s|, n, max, []);
    ServeConserves(s, |s|, n, max, [], p);
    if p !in Pids(s) { AmountAbsent(s, p); }
    i :| 0 <= i < |s| && s[i].pid == p;
    ServeShape(s, |s|, n, max, []);
    AmountAt(s, i);
    AmountAt(r.left, i);
  }

  lemma ServeStep(left: seq<Request>, i: nat, n: nat, max: nat, out: seq<Request>, k: nat)
    requires 0 < i <= |left| && n > 0 && |out| < max && k == Share(n, i, left[i - 1].howmany)
    ensures Serve(left, i, n, max, out)
         == Serve(Reduced(left, i - 1, k), i - 1, n - k, max, Written(out, left[i - 1].pid, k))
  {
    hide Quotient, Share, Reduced, Written;
  }

  lemma ServeDone(left: seq<Request>, i: nat, n: nat, max: nat, out: seq<Request>)
    requires i <= |left| && (i == 0 || n == 0 || |out| >= max)
    ensures Serve(left, i, n, max, out) == Popped(left, out, n)
  {
  }

  method PopNcpus(q: seq<Request>, ncpus: nat, max: nat)
    returns (left: seq<Request>, out: seq<Request>, rest: nat)
    ensures Popped(left, out, rest) == Pop(q, ncpus, max)
  {
    hide Quotient, Share, Pack, Sorted, Serve;
    if |q| == 0 { return [], [], ncpus; }
    left := SortRequests(q);
    out, rest := [], ncpus;
    var i := |left|;
    ghost var goal := Serve(left, i, ncpus, max, []);
    while i > 0 && rest > 0 && |out| < max
      invariant 0 <= i <= |left| && goal == Serve(left, i, rest, max, out)
    {
      var popped := EvenPart(rest, i, left[i - 1].howmany);
      ServeStep(left, i, rest, max, out, popped);
      i := i - 1;
      left := left[i := Request(left[i].pid, left[i].howmany - popped)];
      if popped > 0 {
        out := out + [Request(left[i].pid, popped)];
      }
      rest := rest - popped;
    }
    ServeDone(left, i, rest, max, out);
    left := PackRequests(left);
  }

  /** What one request gets: its even part of the CPUs left, but no more than it wants. */
  method EvenPart(ncpus: nat, positions: nat, wanted: nat) returns (k: nat)
    requires positions > 0
    ensures k == Share(ncpus, positions, wanted)
  {
    QuotientIsDivision(ncpus, positions);
    k := Min(ncpus / positions, wanted);
  }

  method PackRequests(q: seq<Request>) returns (r: seq<Request>)
    ensures r == Pack(q)
  {
    r := [];
    var i := 0;
    while i < |q|
      invariant 0 <= i <= |q|
      invariant r == Pack(q[..i])
    {
      assert q[..i + 1][..i] == q[..i];
      if q[i].howmany > 0 {
        r := r + [q[i]];
      }
      i := i + 1;
    }
    assert q[..|q|] == q;
  }
}
