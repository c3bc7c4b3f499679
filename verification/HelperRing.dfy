/** The message ring of a helper thread (src/LB_comm/shmem_async.c): enqueue_message and dequeue_message under
    the queue lock, and the loop of thread_start. */
module HelperRing {
  const QUEUE_SIZE := 100

  datatype Action = None | EnableCpu | EnableCpuSet | DisableCpu | DisableCpuSet | SetCpuSet | SetNumCpus | Join

  datatype Message = Message(action: Action, cpuid: int, ncpus: int, cpuSet: set<nat>)

  datatype Ring = Ring(slots: seq<Message>, head: nat, tail: nat, joinable: bool)

  datatype Verdict = Accepted | Discarded | Fatal

  predicate RingOk(r: Ring) {
    |r.slots| == QUEUE_SIZE && r.head < QUEUE_SIZE && r.tail < QUEUE_SIZE
  }

  function Next(i: nat): nat {
    if i + 1 == QUEUE_SIZE then 0 else i + 1
  }

  function Enqueue(r: Ring, m: Message): (x: (Ring, Verdict))
    requires RingOk(r)
    ensures RingOk(x.0)
  {
    if r.joinable then (r, Discarded)
    else
      var r1 := r.(joinable := m.action.Join?);
      if Next(r.head) == r.tail then (r1, Fatal)
      else (r1.(slots := r.slots[r.head := m], head := Next(r.head)), Accepted)
  }

  /** Blocks while the ring is empty, so it takes a message from a ring that is not. */
  function Dequeue(r: Ring): (x: (Ring, Message))
    requires RingOk(r) && r.head != r.tail
    ensures RingOk(x.0)
  {
    (r.(tail := Next(r.tail)), r.slots[r.tail])
  }

  // ---------------------------------------------------------------- the queue it stands for

  /** The messages in the ring, oldest first. */
  function Contents(r: Ring): (q: seq<Message>)
    requires RingOk(r)
    ensures |q| < QUEUE_SIZE
  {
    if r.tail <= r.head then r.slots[r.tail..r.head] else r.slots[r.tail..] + r.slots[..r.head]
  }

  /** An accepted message goes last, and the ring is full, which is fatal, at QUEUE_SIZE - 1 messages. */
  lemma EnqueueAppends(r: Ring, m: Message)
    requires RingOk(r)
    ensures var (t, v) := Enqueue(r, m);
      && (v == Discarded <==> r.joinable)
      && (v == Fatal <==> !r.joinable && |Contents(r)| == QUEUE_SIZE - 1)
      && Contents(t) == (if v == Accepted then Contents(r) + [m] else Contents(r))
      && t.joinable == (r.joinable || m.action.Join?)
  {
    var (t, v) := Enqueue(r, m);
    if v == Accepted {
      var q, u := Contents(r), Contents(t);
      assert |u| == |q| + 1;
      forall i | 0 <= i < |u| ensures u[i] == (q + [m])[i] {
        assert r.tail <= r.head && t.head != 0 ==> u[i] == t.slots[r.tail + i];
      }
    }
  }

  /** The oldest message comes out. */
  lemma DequeueRemoves(r: Ring)
    requires RingOk(r) && r.head != r.tail
    ensures var (t, m) := Dequeue(r); Contents(r) == [m] + Contents(t) && t.joinable == r.joinable
  {
    var (t, m) := Dequeue(r);
    var q, u := Contents(r), Contents(t);
    assert |q| == 1 + |u|;
    forall i | 0 <= i < |q| ensures q[i] == ([m] + u)[i] {
    }
  }

  lemma EmptyWhenMet(r: Ring)
    requires RingOk(r)
    ensures r.head == r.tail <==> Contents(r) == []
  {
  }

  // ---------------------------------------------------------------- senders and the helper

  /** The ring, the join flag of the helper, whether its loop has ended, and the messages that senders got
      accepted and the helper has handled so far. */
  datatype World = World(ring: Ring, join: bool, exited: bool, accepted: seq<Message>, handled: seq<Message>)

  datatype Step = Send(m: Message) | Handle

  /** The helper takes a message while its loop goes on, and ends when the loop condition fails; a fatal
      error ends the run. */
  predicate Enabled(w: World, step: Step) {
    RingOk(w.ring) &&
    match step
    case Send(m) => Enqueue(w.ring, m).1 != Fatal
    case Handle => !w.exited && (w.join || w.ring.head != w.ring.tail)
  }

  function Apply(w: World, step: Step): World
    requires Enabled(w, step)
  {
    match step
    case Send(m) =>
      var (r, v) := Enqueue(w.ring, m);
      w.(ring := r, accepted := if v == Accepted then w.accepted + [m] else w.accepted)
    case Handle =>
      if w.join && w.ring.head == w.ring.tail then w.(exited := true)
      else
        var (r, m) := Dequeue(w.ring);
        w.(ring := r, handled := w.handled + [m], join := w.join || m.action.Join?)
  }

  ghost predicate HasJoin(q: seq<Message>) {
    exists i :: 0 <= i < |q| && q[i].action.Join?
  }

  /** A JOIN can only be the last message. */
  ghost predicate JoinLast(q: seq<Message>) {
    forall i :: 0 <= i < |q| && q[i].action.Join? ==> i == |q| - 1
  }

  ghost predicate Inv(w: World) {
    && RingOk(w.ring)
    && w.accepted == w.handled + Contents(w.ring)
    && JoinLast(w.accepted)
    && (w.ring.joinable <==> HasJoin(w.accepted))
    && (w.join <==> HasJoin(w.handled))
    && (w.exited ==> w.join && Contents(w.ring) == [])
  }

  lemma JoinAppended(q: seq<Message>, m: Message)
    ensures HasJoin(q + [m]) <==> HasJoin(q) || m.action.Join?
    ensures !HasJoin(q) ==> JoinLast(q + [m])
  {
    assert (q + [m])[|q|] == m;
    if HasJoin(q) {
      var i :| 0 <= i < |q| && q[i].action.Join?;
      assert (q + [m])[i].action.Join?;
    }
  }

  lemma JoinIsLast(q: seq<Message>)
    requires HasJoin(q) && JoinLast(q)
    ensures |q| > 0 && q[|q| - 1].action.Join?
  {
  }

  lemma JoinInPrefix(q: seq<Message>, u: seq<Message>)
    requires HasJoin(q)
    ensures HasJoin(q + u)
  {
    var i :| 0 <= i < |q| && q[i].action.Join?;
    assert (q + u)[i] == q[i];
  }

  lemma SendKeeps(w: World, m: Message)
    requires Inv(w) && Enabled(w, Send(m))
    ensures Inv(Apply(w, Send(m)))
  {
    EnqueueAppends(w.ring, m);
    var t := Apply(w, Send(m));
    hide Contents, Enqueue, HasJoin, JoinLast;
    JoinAppended(w.accepted, m);
    if w.exited {
      JoinInPrefix(w.handled, Contents(w.ring));
    }
    if !w.ring.joinable {
      assert w.handled + (Contents(w.ring) + [m]) == w.accepted + [m];
    }
  }

  lemma HandleKeeps(w: World)
    requires Inv(w) && Enabled(w, Handle)
    ensures Inv(Apply(w, Handle))
  {
    hide Contents, HasJoin, JoinLast, Dequeue;
    EmptyWhenMet(w.ring);
    if w.ring.head != w.ring.tail {
      DequeueRemoves(w.ring);
      var (r, m) := Dequeue(w.ring);
      JoinAppended(w.handled, m);
      Regroup(w.handled, m, Contents(r));
    }
  }

  lemma Regroup(a: seq<Message>, m: Message, b: seq<Message>)
    ensures a + ([m] + b) == (a + [m]) + b
  {
  }

  ghost predicate IsRun(w: World, steps: seq<Step>)
    decreases |steps|
  {
    steps == [] || (Enabled(w, steps[0]) && IsRun(Apply(w, steps[0]), steps[1..]))
  }

  function Run(w: World, steps: seq<Step>): World
    decreases |steps|
  {
    if steps == [] || !Enabled(w, steps[0]) then w else Run(Apply(w, steps[0]), steps[1..])
  }

  lemma {:induction false} RunKeeps(w: World, steps: seq<Step>)
    requires Inv(w) && IsRun(w, steps)
    ensures Inv(Run(w, steps))
    decreases |steps|
  {
    hide Inv, Apply, Enabled;
    if steps != [] {
      match steps[0] {
        case Send(m) => SendKeeps(w, m);
        case Handle => HandleKeeps(w);
      }
      RunKeeps(Apply(w, steps[0]), steps[1..]);
    }
  }

  function Start(slots: seq<Message>): World {
    World(Ring(slots, 0, 0, false), false, false, [], [])
  }

  /** In every run the messages handled, followed by those in the ring, are those accepted, in order; there are
      never more than QUEUE_SIZE - 1 waiting; and nothing is accepted after a JOIN. */
  lemma RingIsFifo(slots: seq<Message>, steps: seq<Step>)
    requires |slots| == QUEUE_SIZE && IsRun(Start(slots), steps)
    ensures var w := Run(Start(slots), steps);
      RingOk(w.ring) && w.accepted == w.handled + Contents(w.ring) && |Contents(w.ring)| < QUEUE_SIZE && JoinLast(w.accepted)
  {
    RunKeeps(Start(slots), steps);
    hide Run, IsRun, Contents;
  }

  /** The helper only ends after handling every accepted message, once and in order, the JOIN last. */
  lemma ExitsWhenAllHandled(slots: seq<Message>, steps: seq<Step>)
    requires |slots| == QUEUE_SIZE && IsRun(Start(slots), steps) && Run(Start(slots), steps).exited
    ensures var w := Run(Start(slots), steps);
      w.handled == w.accepted && |w.handled| > 0 && w.handled[|w.handled| - 1].action.Join? && w.ring.joinable
  {
    RunKeeps(Start(slots), steps);
    var w := Run(Start(slots), steps);
    hide Run, IsRun, Contents, HasJoin, JoinLast;
    assert w.handled == w.accepted;
    JoinIsLast(w.accepted);
  }

  /** Once a JOIN is accepted the helper never blocks: it has a message to take, or its loop ends. */
  lemma NoBlockAfterJoin(w: World)
    requires Inv(w) && HasJoin(w.accepted) && !w.exited
    ensures Enabled(w, Handle)
  {
    EmptyWhenMet(w.ring);
    hide Contents;
    if !w.join {
      var i :| 0 <= i < |w.accepted| && w.accepted[i].action.Join?;
      assert i < |w.handled| ==> w.handled[i] == w.accepted[i];
    }
  }
}
