/** enqueue_message in its two parts (src/LB_comm/shmem_async.c): a sender reads the joinable flag before it takes
    the queue lock, so that other steps can come in between. HelperRing takes both parts as one step. */
module HelperRace {
  import opened HelperRing

  /** The part under the lock. */
  function Put(r: Ring, m: Message): (x: (Ring, Verdict))
    requires RingOk(r)
    ensures RingOk(x.0)
  {
    var r1 := r.(joinable := r.joinable || m.action.Join?);
    if Next(r.head) == r.tail then (r1, Fatal)
    else (r1.(slots := r.slots[r.head := m], head := Next(r.head)), Accepted)
  }

  /** With nothing in between, the two parts are the atomic step. */
  lemma EnqueueIsTestThenPut(r: Ring, m: Message)
    requires RingOk(r)
    ensures Enqueue(r, m) == if r.joinable then (r, Discarded) else Put(r, m)
  {
  }

  lemma PutAppends(r: Ring, m: Message)
    requires RingOk(r)
    ensures var (t, v) := Put(r, m);
      && (v == Fatal <==> |Contents(r)| == QUEUE_SIZE - 1) && (v == Fatal || v == Accepted)
      && Contents(t) == (if v == Accepted then Contents(r) + [m] else Contents(r))
      && t.joinable == (r.joinable || m.action.Join?)
  {
    var open := r.(joinable := false);
    EnqueueAppends(open, m);
    EnqueueIsTestThenPut(open, m);
    assert Contents(open) == Contents(r);
    assert Contents(Put(r, m).0) == Contents(Put(open, m).0);
    hide Contents;
  }

  /** The messages inside belong to senders that found the helper open and have not taken the lock yet. */
  datatype Race = Race(world: World, inside: seq<Message>)

  datatype Move = Test(m: Message) | Enter(i: nat) | Attend

  predicate Enabled(w: Race, move: Move) {
    RingOk(w.world.ring) &&
    match move
    case Test(_) => true
    case Enter(i) => i < |w.inside| && Put(w.world.ring, w.inside[i]).1 != Fatal
    case Attend => HelperRing.Enabled(w.world, Handle)
  }

  function Apply(w: Race, move: Move): Race
    requires Enabled(w, move)
  {
    match move
    case Test(m) => if w.world.ring.joinable then w else w.(inside := w.inside + [m])
    case Enter(i) =>
      var m := w.inside[i];
      Race(w.world.(ring := Put(w.world.ring, m).0, accepted := w.world.accepted + [m]), w.inside[..i] + w.inside[i + 1..])
    case Attend => w.(world := HelperRing.Apply(w.world, Handle))
  }

  ghost predicate IsRun(w: Race, moves: seq<Move>)
    decreases |moves|
  {
    moves == [] || (Enabled(w, moves[0]) && IsRun(Apply(w, moves[0]), moves[1..]))
  }

  function Run(w: Race, moves: seq<Move>): Race
    decreases |moves|
  {
    if moves == [] || !Enabled(w, moves[0]) then w else Run(Apply(w, moves[0]), moves[1..])
  }

  ghost predicate Inv(w: Race) {
    var v := w.world;
    && RingOk(v.ring)
    && v.accepted == v.handled + Contents(v.ring)
    && (v.ring.joinable <==> HasJoin(v.accepted))
    && (v.join <==> HasJoin(v.handled))
  }

  lemma MoveKeeps(w: Race, move: Move)
    requires Inv(w) && Enabled(w, move)
    ensures Inv(Apply(w, move))
  {
    var v := w.world;
    hide Contents, HasJoin, Put, Dequeue;
    match move
    case Test(m) =>
    case Enter(i) =>
      var m := w.inside[i];
      PutAppends(v.ring, m);
      JoinAppended(v.accepted, m);
      assert v.handled + (Contents(v.ring) + [m]) == v.accepted + [m];
    case Attend =>
      EmptyWhenMet(v.ring);
      if v.ring.head != v.ring.tail {
        DequeueRemoves(v.ring);
        var (r, m) := Dequeue(v.ring);
        JoinAppended(v.handled, m);
        Regroup(v.handled, m, Contents(r));
      }
  }

  /** In every interleaving the messages handled, followed by those in the ring, are those accepted, in order. */
  lemma {:induction false} RunKeeps(w: Race, moves: seq<Move>)
    requires Inv(w) && IsRun(w, moves)
    ensures Inv(Run(w, moves))
    decreases |moves|
  {
    hide Inv, Apply, Enabled;
    if moves != [] {
      MoveKeeps(w, moves[0]);
      RunKeeps(Apply(w, moves[0]), moves[1..]);
    }
  }

  // ---------------------------------------------------------------- after a JOIN

  /** What is accepted from w on is taken from the senders that were inside. */
  ghost predicate OnlyInside(w: Race, u: Race) {
    && w.world.accepted <= u.world.accepted
    && multiset(u.world.accepted) + multiset(u.inside) == multiset(w.world.accepted) + multiset(w.inside)
  }

  lemma MoveOnlyInside(w: Race, move: Move)
    requires Inv(w) && Enabled(w, move) && w.world.ring.joinable
    ensures OnlyInside(w, Apply(w, move)) && Apply(w, move).world.ring.joinable
  {
    var v := w.world;
    hide Contents, HasJoin, Dequeue;
    if move.Enter? {
      var i := move.i;
      PutAppends(v.ring, w.inside[i]);
      hide Put;
      assert w.inside == w.inside[..i] + [w.inside[i]] + w.inside[i + 1..];
    } else if move.Attend? {
      EmptyWhenMet(v.ring);
      if v.ring.head != v.ring.tail {
        DequeueRemoves(v.ring);
      }
    }
  }

  /** Once a JOIN is in, no new sender gets in: whatever is accepted later comes from senders that had read the flag
      before, and each of them is accepted at most once. */
  lemma {:induction false} LateWereInside(w: Race, moves: seq<Move>)
    requires Inv(w) && IsRun(w, moves) && w.world.ring.joinable
    ensures OnlyInside(w, Run(w, moves))
    decreases |moves|
  {
    if moves != [] {
      MoveKeeps(w, moves[0]);
      MoveOnlyInside(w, moves[0]);
      hide Inv, Apply, Enabled;
      LateWereInside(Apply(w, moves[0]), moves[1..]);
    }
  }

  /** The helper has ended and left a full ring: nobody can make room any more. */
  predicate Stuck(w: Race)
    requires RingOk(w.world.ring)
  {
    w.world.exited && |Contents(w.world.ring)| == QUEUE_SIZE - 1
  }

  /** Otherwise there is room for one more message, or the helper can make it. */
  lemma MakesRoom(w: Race) returns (moves: seq<Move>)
    requires Inv(w) && w.inside != [] && !Stuck(w) && w.world.ring.joinable
    ensures IsRun(w, moves) && Run(w, moves).world.accepted == w.world.accepted + [w.inside[0]]
  {
    PutAppends(w.world.ring, w.inside[0]);
    if |Contents(w.world.ring)| < QUEUE_SIZE - 1 {
      moves := [Enter(0)];
      RunOne(w, Enter(0));
    } else {
      EmptyWhenMet(w.world.ring);
      DequeueRemoves(w.world.ring);
      assert Enabled(w, Attend);
      MoveKeeps(w, Attend);
      var u := Apply(w, Attend);
      PutAppends(u.world.ring, w.inside[0]);
      hide Contents, Put, Dequeue;
      moves := [Attend, Enter(0)];
      RunOne(u, Enter(0));
      assert moves[1..] == [Enter(0)];
    }
  }

  lemma RunOne(w: Race, move: Move)
    requires Enabled(w, move)
    ensures IsRun(w, [move]) && Run(w, [move]) == Apply(w, move)
  {
    hide Apply;
    assert [move][1..] == [];
  }

  ghost predicate NothingFollows(w: Race) {
    forall moves :: IsRun(w, moves) ==> Run(w, moves).world.accepted == w.world.accepted
  }

  lemma {:induction false} StuckStays(w: Race, moves: seq<Move>)
    requires Inv(w) && Stuck(w) && w.world.ring.joinable && IsRun(w, moves)
    ensures Run(w, moves).world.accepted == w.world.accepted
    decreases |moves|
  {
    if moves != [] {
      var move := moves[0];
      if move.Enter? {
        PutAppends(w.world.ring, w.inside[move.i]);
      }
      hide Contents, Put;
      assert Apply(w, move) == w;
      StuckStays(w, moves[1..]);
    }
  }

  /** Nothing is accepted after a JOIN, whatever happens next, exactly when no sender is inside at that point, or the
      helper has ended and the ring is full. */
  lemma JoinIsFinal(w: Race)
    requires Inv(w) && w.world.ring.joinable
    ensures NothingFollows(w) <==> w.inside == [] || Stuck(w)
  {
    if w.inside == [] {
      forall moves | IsRun(w, moves) ensures Run(w, moves).world.accepted == w.world.accepted {
        LateWereInside(w, moves);
        hide Run, IsRun, Inv;
        var u := Run(w, moves);
        assert |multiset(u.world.accepted)| <= |multiset(w.world.accepted)| by {
          assert |multiset(u.world.accepted) + multiset(u.inside)| == |multiset(w.world.accepted)|;
        }
        assert u.world.accepted[..|w.world.accepted|] == w.world.accepted;
      }
    } else if Stuck(w) {
      forall moves | IsRun(w, moves) ensures Run(w, moves).world.accepted == w.world.accepted {
        StuckStays(w, moves);
      }
    } else {
      var moves := MakesRoom(w);
      hide Run, IsRun;
      assert !NothingFollows(w);
    }
  }

  /** A sender tests the flag, a JOIN is enqueued and handled and the helper ends, and only then the sender takes the
      lock: its message is accepted and never handled. */
  lemma AcceptedAndLost(slots: seq<Message>, m: Message, join: Message)
    requires |slots| == QUEUE_SIZE && !m.action.Join? && join.action.Join?
    ensures var moves := [Test(m), Test(join), Enter(1), Attend, Attend, Enter(0)];
      var w := Race(HelperRing.Start(slots), []);
      && IsRun(w, moves) && Run(w, moves).world.exited
      && Run(w, moves).world.accepted == [join, m] && Run(w, moves).world.handled == [join]
  {
    var w0 := Race(HelperRing.Start(slots), []);
    var w1 := Apply(w0, Test(m));
    assert w1 == w0.(inside := [m]);
    var w2 := Apply(w1, Test(join));
    assert w2 == w0.(inside := [m, join]);
    var r1 := Ring(slots[0 := join], 1, 0, true);
    var w3 := Apply(w2, Enter(1));
    assert w3 == Race(World(r1, false, false, [join], []), [m]);
    var w4 := Apply(w3, Attend);
    assert w4 == Race(World(r1.(tail := 1), true, false, [join], [join]), [m]);
    var w5 := Apply(w4, Attend);
    assert w5 == w4.(world := w4.world.(exited := true));
    hide Apply, Enabled;
    RunOne(w5, Enter(0));
    RunCons(w4, Attend, [Enter(0)]);
    RunCons(w3, Attend, [Attend] + [Enter(0)]);
    RunCons(w2, Enter(1), [Attend] + ([Attend] + [Enter(0)]));
    RunCons(w1, Test(join), [Enter(1)] + ([Attend] + ([Attend] + [Enter(0)])));
    RunCons(w0, Test(m), [Test(join)] + ([Enter(1)] + ([Attend] + ([Attend] + [Enter(0)]))));
    assert [Test(m), Test(join), Enter(1), Attend, Attend, Enter(0)] ==
      [Test(m)] + ([Test(join)] + ([Enter(1)] + ([Attend] + ([Attend] + [Enter(0)]))));
  }

  lemma RunCons(w: Race, move: Move, rest: seq<Move>)
    requires Enabled(w, move) && IsRun(Apply(w, move), rest)
    ensures IsRun(w, [move] + rest) && Run(w, [move] + rest) == Run(Apply(w, move), rest)
  {
    hide Apply, Enabled;
    assert ([move] + rest)[1..] == rest;
  }
}
