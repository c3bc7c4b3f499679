/** The helper of a process and its ring buffer, updated in place (src/LB_comm/shmem_async.c). */
module Helper {
  import opened HelperRing

  datatype Status = Unknown | Waiting | Busy

  class HelperQueue {
    const queue: array<Message>
    var head: nat
    var tail: nat
    var joinable: bool
    var status: Status

    function View(): Ring
      reads this, queue
    {
      Ring(queue[..], head, tail, joinable)
    }

    predicate Valid()
      reads this, queue
    {
      RingOk(View())
    }

    constructor (filler: Message)
      ensures Valid() && fresh(queue) && Contents(View()) == [] && !joinable
    {
      queue := new Message[QUEUE_SIZE](_ => filler);
      head, tail, joinable, status := 0, 0, false, Unknown;
    }

    method EnqueueMessage(m: Message) returns (v: Verdict)
      requires Valid()
      modifies this, queue
      ensures Valid() && (View(), v) == Enqueue(old(View()), m)
    {
      if joinable { return Discarded; }
      if m.action.Join? {
        joinable := true;
      }
      var nextHead := (head + 1) % QUEUE_SIZE;
      if nextHead == tail { return Fatal; }
      queue[head] := m;
      head := nextHead;
      v := Accepted;
    }

    /** Waits while the ring is empty, with the lock released, so that senders enqueue the arrivals meanwhile. It is
        still blocked, and got is false, when they have all come and the ring is empty. */
    method DequeueMessage(arrivals: seq<Message>) returns (got: bool, m: Message, rest: seq<Message>)
      requires Valid()
      modifies this, queue
      ensures Valid() && rest == Await(old(View()), arrivals).1
      ensures var t := Await(old(View()), arrivals).0;
        && got == (t.head != t.tail)
        && if got then (View(), m) == Dequeue(t) else View() == t
    {
      status := Waiting;
      rest := arrivals;
      while head == tail
        invariant Valid() && Await(View(), rest) == Await(old(View()), arrivals)
        decreases |rest|
      {
        if rest == [] {
          got, m := false, queue[tail];
          return;
        }
        var v := EnqueueMessage(rest[0]);
        rest := rest[1..];
      }
      status := Busy;
      var nextTail := (tail + 1) % QUEUE_SIZE;
      got, m := true, queue[tail];
      tail := nextTail;
    }

    /** thread_start: the helper handles what is in the ring and what arrives while it waits, in order, up to the
        JOIN, and then it ends; without a JOIN it handles everything and stays blocked. */
    method RunHelper(arrivals: seq<Message>) returns (handled: seq<Message>, ended: bool)
      requires Valid() && JoinLast(Contents(View())) && (joinable <==> HasJoin(Contents(View())))
      modifies this, queue
      ensures Valid() && Contents(View()) == []
      ensures handled == Due(old(Contents(View())), arrivals)
      ensures ended <==> HasJoin(handled)
    {
      hide Contents, Dequeue, Enqueue, Await;
      ghost var q := Contents(View());
      handled := [];
      var join := false;
      var rest := arrivals;
      assert Contents(View()) + [] == q && [] + q == q;
      while !join || head != tail
        invariant Valid() && (join <==> HasJoin(handled))
        invariant Ahead(handled, View(), rest, q, arrivals)
        decreases |Contents(View())| + |rest|, !join
      {
        ghost var before := View();
        AwaitEffect(before, rest);
        EmptyWhenMet(before);
        ghost var awaited := Await(before, rest);
        AheadWaits(handled, before, rest, q, arrivals);
        EmptyWhenMet(awaited.0);
        var got, m, later := DequeueMessage(rest);
        if !got {
          BlockedIsDone(handled, awaited.0, q, arrivals);
          return handled, false;
        }
        DequeueRemoves(awaited.0);
        AheadTakes(handled, awaited.0, later, q, arrivals);
        JoinAppended(handled, m);
        handled, rest := handled + [m], later;
        join := join || m.action.Join?;
      }
      EmptyWhenMet(View());
      EndedIsDone(handled, View(), rest, q, arrivals);
      ended := true;
    }
  }

  /** The ring once a waiting helper finds a message or nobody else comes, and the messages not sent by then. */
  function Await(r: Ring, arrivals: seq<Message>): (x: (Ring, seq<Message>))
    requires RingOk(r)
    ensures RingOk(x.0) && |x.1| <= |arrivals|
    decreases |arrivals|
  {
    if r.head != r.tail || arrivals == [] then (r, arrivals) else Await(Enqueue(r, arrivals[0]).0, arrivals[1..])
  }

  /** The messages up to the first JOIN, the JOIN included. */
  function UpToJoin(q: seq<Message>): seq<Message> {
    if q == [] then [] else if q[0].action.Join? then [q[0]] else [q[0]] + UpToJoin(q[1..])
  }

  /** What the helper has to handle: nothing is accepted after a JOIN. */
  ghost function Due(q: seq<Message>, arrivals: seq<Message>): seq<Message> {
    if HasJoin(q) then q else q + UpToJoin(arrivals)
  }

  /** A helper that finds the ring empty gets the first arrival, unless the ring accepts no more. */
  lemma {:induction false} AwaitEffect(r: Ring, arrivals: seq<Message>)
    requires RingOk(r)
    ensures var (t, rest) := Await(r, arrivals);
      if Contents(r) != [] then (t, rest) == (r, arrivals)
      else if r.joinable || arrivals == [] then t == r && rest == []
      else Contents(t) == [arrivals[0]] && rest == arrivals[1..] && t.joinable == arrivals[0].action.Join?
    decreases |arrivals|
  {
    EmptyWhenMet(r);
    if Contents(r) == [] && arrivals != [] {
      EnqueueAppends(r, arrivals[0]);
      AwaitEffect(Enqueue(r, arrivals[0]).0, arrivals[1..]);
      hide Contents, Enqueue;
      assert [] + [arrivals[0]] == [arrivals[0]];
    }
  }

  /** What is handled, in the ring and still to come is what is due. */
  ghost predicate Ahead(handled: seq<Message>, r: Ring, rest: seq<Message>, q: seq<Message>, arrivals: seq<Message>) {
    && RingOk(r) && (r.joinable <==> HasJoin(handled + Contents(r))) && JoinLast(handled + Contents(r))
    && handled + Contents(r) + (if r.joinable then [] else UpToJoin(rest)) == Due(q, arrivals)
  }

  lemma AheadWaits(handled: seq<Message>, r: Ring, rest: seq<Message>, q: seq<Message>, arrivals: seq<Message>)
    requires Ahead(handled, r, rest, q, arrivals) && (HasJoin(handled) ==> Contents(r) != [])
    ensures var (t, later) := Await(r, rest);
      && Ahead(handled, t, later, q, arrivals)
      && |Contents(t)| + |later| <= |Contents(r)| + |rest|
      && (Contents(t) == [] ==> !t.joinable && later == [])
  {
    AwaitEffect(r, rest);
    hide Await, Contents, Due, HasJoin, JoinLast, UpToJoin;
    if Contents(r) == [] {
      assert handled + [] == handled;
      if rest != [] {
        JoinAppended(handled, rest[0]);
        FirstUpToJoin(handled, rest);
      }
    }
  }

  lemma FirstUpToJoin(a: seq<Message>, q: seq<Message>)
    requires q != []
    ensures a + UpToJoin(q) == a + [q[0]] + if q[0].action.Join? then [] else UpToJoin(q[1..])
  {
    Regroup(a, q[0], UpToJoin(q[1..]));
    assert a + [q[0]] + [] == a + [q[0]];
  }

  lemma AheadTakes(handled: seq<Message>, r: Ring, rest: seq<Message>, q: seq<Message>, arrivals: seq<Message>)
    requires Ahead(handled, r, rest, q, arrivals) && r.head != r.tail
    ensures var (t, m) := Dequeue(r); Ahead(handled + [m], t, rest, q, arrivals)
  {
    DequeueRemoves(r);
    var (t, m) := Dequeue(r);
    hide Contents, Due, HasJoin, JoinLast, Dequeue, UpToJoin;
    Regroup(handled, m, Contents(t));
  }

  lemma BlockedIsDone(handled: seq<Message>, r: Ring, q: seq<Message>, arrivals: seq<Message>)
    requires Ahead(handled, r, [], q, arrivals) && Contents(r) == [] && !r.joinable
    ensures handled == Due(q, arrivals) && !HasJoin(handled)
  {
    hide Contents, Due, HasJoin, JoinLast;
    assert handled + [] == handled;
  }

  lemma EndedIsDone(handled: seq<Message>, r: Ring, rest: seq<Message>, q: seq<Message>, arrivals: seq<Message>)
    requires Ahead(handled, r, rest, q, arrivals) && Contents(r) == [] && HasJoin(handled)
    ensures handled == Due(q, arrivals)
  {
    hide Contents, Due, HasJoin, JoinLast, UpToJoin;
    assert handled + [] == handled && handled + [] + [] == handled;
  }
}
