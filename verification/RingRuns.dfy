/**
 Whole runs of the ring, every interleaving of the two threads' steps: they are runs of a bounded queue. For the
 queue between parser and engine, they are a log of offers and takes, and what the log says the engine gets is what
 the consumer's thread has read out of the slots.
 */
module RingRuns {
  import opened BitMask
  import opened RingSteps
  import opened MessageQueues

  // ----- any ring -----

  function Actions<T(==)>(s: State<T>, steps: seq<Step<T>>): seq<QueueAction<T>>
    requires Possible(s, steps)
    decreases |steps|
  {
    if steps == [] then [] else [Action(s, steps[0])] + Actions(Apply(s, steps[0]), steps[1..])
  }

  /** The queue after the actions, if each of them is one a bounded queue can make. */
  ghost predicate QueueRun<T(!new)>(capacity: nat, q: seq<T>, actions: seq<QueueAction<T>>, q': seq<T>)
    decreases |actions|
  {
    if actions == [] then q' == q
    else exists q1 :: QueueStep(capacity, q, actions[0], q1) && QueueRun(capacity, q1, actions[1..], q')
  }

  /** Every run of the ring is a run of the bounded queue. */
  lemma {:induction false} RunRefinesQueue<T(!new)>(s: State<T>, steps: seq<Step<T>>)
    requires Inv(s) && Possible(s, steps)
    ensures Inv(After(s, steps))
    ensures QueueRun(s.capacity, Contents(s), Actions(s, steps), Contents(After(s, steps)))
    decreases |steps|
  {
    if steps != [] {
      var s1 := Apply(s, steps[0]);
      StepRefinesQueue(s, steps[0]);
      RunRefinesQueue(s1, steps[1..]);
      assert Actions(s, steps)[1..] == Actions(s1, steps[1..]);
      assert QueueStep(s.capacity, Contents(s), Actions(s, steps)[0], Contents(s1));
    }
  }

  // ----- the ring between parser and engine -----

  /** What a step adds to the log: an offer when it is decided, a take when the item is taken. */
  function Logged(s: State<Stamped>, step: Step<Stamped>): seq<QueueEvent>
    requires Enabled(s, step)
  {
    match step
    case LoadTail => if PushFails(s) then [Offer(s.push.item)] else []
    case StoreHead => [Offer(s.push.item)]
    case StoreTail => [Remove]
    case _ => []
  }

  function LogFrom(log: seq<QueueEvent>, s: State<Stamped>, steps: seq<Step<Stamped>>): seq<QueueEvent>
    requires Possible(s, steps)
    decreases |steps|
  {
    if steps == [] then log else LogFrom(log + Logged(s, steps[0]), Apply(s, steps[0]), steps[1..])
  }

  /** The item of a push whose fate is not decided yet. */
  function InFlight(s: State<Stamped>): seq<Stamped> {
    if s.push.HeadRead? || s.push.RoomSeen? || s.push.Writing? || s.push.Written? then [s.push.item] else []
  }

  function BegunBy(step: Step<Stamped>): seq<Stamped> {
    if step.LoadOwnHead? then [step.item] else []
  }

  /** The items pushes were begun with, in order. */
  function Begun(steps: seq<Step<Stamped>>): seq<Stamped> {
    if steps == [] then [] else BegunBy(steps[0]) + Begun(steps[1..])
  }

  /** The log accounts for the memory: what is pending, what was taken and published, which pushes were begun. */
  ghost predicate Accounts(log: seq<QueueEvent>, s: State<Stamped>, begun: seq<Stamped>)
    requires Inv(s)
  {
    var q := Played(log);
    && q.pending == Contents(s) && q.taken == s.popped && q.accepted == s.pushed
    && q.offered + InFlight(s) == begun
  }

  lemma StepAccounts(log: seq<QueueEvent>, s: State<Stamped>, begun: seq<Stamped>, step: Step<Stamped>)
    requires Inv(s) && s.capacity == RING_BUFFER_SIZE && Enabled(s, step) && Accounts(log, s, begun)
    ensures Inv(Apply(s, step)) && Apply(s, step).capacity == RING_BUFFER_SIZE
    ensures Accounts(log + Logged(s, step), Apply(s, step), begun + BegunBy(step))
  {
    var s' := Apply(s, step);
    StepRefinesQueue(s, step);
    FailsExactly(s);
    if Logged(s, step) == [] {
      assert log + [] == log && begun + [] == begun;
    } else {
      PlayedOn(log, Logged(s, step)[0]);
      assert begun + [] == begun;
    }
  }

  lemma {:induction false} RunAccounts(log: seq<QueueEvent>, s: State<Stamped>, begun: seq<Stamped>,
                                       steps: seq<Step<Stamped>>)
    requires Inv(s) && s.capacity == RING_BUFFER_SIZE && Possible(s, steps) && Accounts(log, s, begun)
    ensures Inv(After(s, steps)) && Accounts(LogFrom(log, s, steps), After(s, steps), begun + Begun(steps))
    decreases |steps|
  {
    if steps == [] {
      assert begun + [] == begun;
    } else {
      StepAccounts(log, s, begun, steps[0]);
      RunAccounts(log + Logged(s, steps[0]), Apply(s, steps[0]), begun + BegunBy(steps[0]), steps[1..]);
      BegunOnward(begun, steps);
    }
  }

  lemma BegunOnward(begun: seq<Stamped>, steps: seq<Step<Stamped>>)
    requires steps != []
    ensures begun + Begun(steps) == begun + BegunBy(steps[0]) + Begun(steps[1..])
  {
  }

  /**
   Whatever the interleaving of the two threads' steps, and whatever the slots hold at first: the messages read out
   of the ring and those in it are the offers made with room, in order; the offers are the pushes begun, but for one
   still in flight; and nothing offered is lost if and only if there was room at every offer.
   */
  lemma EngineGetsOffersUnderEveryInterleaving(buffer: seq<Stamped>, steps: seq<Step<Stamped>>)
    requires |buffer| == 128 && Possible(Start(128, buffer), steps)
    ensures var s0 := Start(128, buffer);
            var s, log := After(s0, steps), LogFrom([], s0, steps);
            && InRange(s) && s.popped + Contents(s) == OffersWithRoom(log) && |Contents(s)| == Waiting(log)
            && Offers(log) + InFlight(s) == Begun(steps)
            && (s.popped + Contents(s) == Offers(log) <==> AlwaysRoom(log))
  {
    var s0 := Start(RING_BUFFER_SIZE, buffer);
    assert MaskOk(RING_BUFFER_SIZE) by {
      Pow2IsMaskOk(7);
      assert Pow2(4) == 16;
    }
    StartIsInv(RING_BUFFER_SIZE, buffer);
    assert Accounts([], s0, []) by {
      ContentsArePending(s0);
    }
    RunAccounts([], s0, [], steps);
    assert [] + Begun(steps) == Begun(steps);
    EngineGetsOffersWithRoom(LogFrom([], s0, steps));
    NothingLostExactly(LogFrom([], s0, steps));
  }
}
