/**
 The semaphore beside the ring: how its permits relate to the items, and exactly when a permit can be spent
 on a pop that finds nothing.
 */
module RingPermits {
  import opened BitMask
  import opened RingSteps

  /** The consumer only ever pops with a permit. */
  predicate WaitsAlways<T>(steps: seq<Step<T>>) {
    forall i :: 0 <= i < |steps| ==> !steps[i].SkipAcquire?
  }

  predicate NoneBare<T>(s: State<T>) {
    s.bare == 0 && (!s.pop.NotPopping? ==> s.pop.held)
  }

  lemma {:induction false} WaitingKeepsNoneBare<T>(s: State<T>, steps: seq<Step<T>>)
    requires Inv(s) && NoneBare(s) && Possible(s, steps) && WaitsAlways(steps)
    ensures Inv(After(s, steps)) && NoneBare(After(s, steps))
    decreases |steps|
  {
    if steps != [] {
      StepKeepsInv(s, steps[0]);
      assert !steps[0].SkipAcquire?;
      WaitingKeepsNoneBare(Apply(s, steps[0]), steps[1..]);
    }
  }

  /**
   With a consumer that only waits: permits in the semaphore, in its hand and about to be released are
   as many as the items, so a pop that acquired a permit never finds the ring empty.
   */
  lemma PermitMeansItem<T>(capacity: nat, buffer: seq<T>, steps: seq<Step<T>>)
    requires MaskOk(capacity) && |buffer| == capacity && Possible(Start(capacity, buffer), steps) && WaitsAlways(steps)
    ensures var s := After(Start(capacity, buffer), steps);
            && InRange(s) && s.permits + HeldPermits(s) + DuePermits(s) == |Contents(s)|
            && (s.pop.TailRead? ==> !PopFails(s))
  {
    StartIsInv(capacity, buffer);
    WaitingKeepsNoneBare(Start(capacity, buffer), steps);
    ContentsArePending(After(Start(capacity, buffer), steps));
    FailsExactly(After(Start(capacity, buffer), steps));
  }

  /** In general a permit is wasted only after some pop went without one, and never more permits than such pops. */
  lemma WasteIsBounded<T>(capacity: nat, buffer: seq<T>, steps: seq<Step<T>>)
    requires MaskOk(capacity) && |buffer| == capacity && Possible(Start(capacity, buffer), steps)
    ensures var s := After(Start(capacity, buffer), steps);
            && InRange(s) && s.wasted <= s.bare
            && s.permits + HeldPermits(s) + DuePermits(s) == |Contents(s)| + (s.bare - s.wasted)
  {
    StartIsInv(capacity, buffer);
    RunKeepsInv(Start(capacity, buffer), steps);
    ContentsArePending(After(Start(capacity, buffer), steps));
  }

  // ----- exactly when a permit can be wasted -----

  /** However the run goes on with waiting pops only, no pop that holds a permit finds the ring empty. */
  ghost predicate NeverWastes<T(!new)>(s: State<T>) {
    forall steps :: Possible(s, steps) && WaitsAlways(steps) ==> !AboutToWaste(After(s, steps))
  }

  predicate AboutToWaste<T>(s: State<T>) {
    s.pop.TailRead? && s.pop.held && PopFails(s)
  }

  /** A pop without a permit is under way. */
  predicate PlainPop<T>(s: State<T>) {
    !s.pop.NotPopping? && !s.pop.held
  }

  /** No permit to spare, nor about to be: a plain pop under way could still leave one, if the ring holds anything. */
  predicate Tight<T>(s: State<T>) {
    s.bare == s.wasted && (!PlainPop(s) || s.capacity == 1)
  }

  lemma TightMeansNoWaste<T>(s: State<T>)
    requires Inv(s) && s.bare == s.wasted
    ensures !AboutToWaste(s)
  {
    FailsExactly(s);
    ContentsArePending(s);
  }

  lemma WaitingKeepsTight<T>(s: State<T>, step: Step<T>)
    requires Inv(s) && Tight(s) && Enabled(s, step) && !step.SkipAcquire?
    ensures Inv(Apply(s, step)) && Tight(Apply(s, step))
  {
    StepKeepsInv(s, step);
    TightMeansNoWaste(s);
  }

  lemma {:induction false} TightNeverWastes<T>(s: State<T>, steps: seq<Step<T>>)
    requires Inv(s) && Tight(s) && Possible(s, steps) && WaitsAlways(steps)
    ensures !AboutToWaste(After(s, steps))
    decreases |steps|
  {
    if steps == [] {
      TightMeansNoWaste(s);
    } else {
      assert !steps[0].SkipAcquire?;
      WaitingKeepsTight(s, steps[0]);
      TightNeverWastes(Apply(s, steps[0]), steps[1..]);
    }
  }

  /** How many of its own steps a pop still has to the point where it enters anew. */
  function PopLeft<T>(s: State<T>): nat {
    match s.pop
    case NotPopping => 6
    case Entered(_) => 5
    case TailRead(_, _) => 4
    case ItemSeen(_, _, _) => 3
    case Reading(_, _, _, _) => 2
    case ReadDone(_, _, _) => 1
  }

  /** The consumer's next step, waiting if it enters anew. */
  function NextPopStep<T>(s: State<T>): Step<T>
    requires InRange(s)
  {
    match s.pop
    case NotPopping => Acquire
    case Entered(_) => LoadOwnTail
    case TailRead(_, _) => LoadHead
    case ItemSeen(_, _, _) => BeginRead
    case Reading(_, _, seen, _) => EndRead(seen)
    case ReadDone(_, _, _) => StoreTail
  }

  lemma OneMore<T>(s: State<T>, step: Step<T>, rest: seq<Step<T>>) returns (steps: seq<Step<T>>)
    requires Enabled(s, step) && !step.SkipAcquire?
    requires Possible(Apply(s, step), rest) && WaitsAlways(rest)
    ensures Possible(s, steps) && WaitsAlways(steps) && After(s, steps) == After(Apply(s, step), rest)
  {
    steps := [step] + rest;
    StepThen(s, step, rest);
  }

  /** With a permit to spare and no plain pop under way, letting the consumer wait and pop on gets there. */
  lemma {:induction false} SpareIsWasted<T>(s: State<T>) returns (steps: seq<Step<T>>)
    requires Inv(s) && s.bare > s.wasted && !PlainPop(s)
    ensures Possible(s, steps) && WaitsAlways(steps) && AboutToWaste(After(s, steps))
    decreases s.push.Published?, Items(s), PopLeft(s)
  {
    if AboutToWaste(s) {
      steps := [];
    } else {
      var step := if s.push.Published? then Release else NextPopStep(s);
      SpareStep(s, step);
      var rest := SpareIsWasted(Apply(s, step));
      steps := OneMore(s, step, rest);
    }
  }

  lemma SpareStep<T>(s: State<T>, step: Step<T>)
    requires Inv(s) && s.bare > s.wasted && !PlainPop(s) && !AboutToWaste(s)
    requires step == if s.push.Published? then Release else NextPopStep(s)
    ensures Enabled(s, step) && !step.SkipAcquire?
    ensures var s' := Apply(s, step);
            && Inv(s') && s'.bare == s.bare && s'.wasted == s.wasted && !PlainPop(s') && 0 <= Items(s') <= Items(s)
            && (s.push.Published? ==> !s'.push.Published?)
            && (!s.push.Published? ==>
                  !s'.push.Published? && (Items(s') < Items(s) || PopLeft(s') < PopLeft(s)))
  {
    assert Enabled(s, step);
    var s' := Apply(s, step);
    StepKeepsInv(s, step);
    StepRefinesQueue(s, step);
    ContentsArePending(s);
    ContentsArePending(s');
  }

  /** The same after a plain pop under way has come to its end, found something or not. */
  lemma {:induction false} PlainPopThenSpare<T>(s: State<T>) returns (steps: seq<Step<T>>)
    requires Inv(s) && s.bare > s.wasted && PlainPop(s)
    ensures Possible(s, steps) && WaitsAlways(steps) && AboutToWaste(After(s, steps))
    decreases PopLeft(s)
  {
    var step := NextPopStep(s);
    PlainEnds(s, step);
    var s' := Apply(s, step);
    var rest;
    if PlainPop(s') {
      rest := PlainPopThenSpare(s');
    } else {
      rest := SpareIsWasted(s');
    }
    steps := OneMore(s, step, rest);
  }

  lemma PlainEnds<T>(s: State<T>, step: Step<T>)
    requires Inv(s) && s.bare > s.wasted && PlainPop(s) && step == NextPopStep(s)
    ensures Enabled(s, step) && !step.SkipAcquire?
    ensures var s' := Apply(s, step);
            Inv(s') && s'.bare > s'.wasted && (PlainPop(s') ==> PopLeft(s') < PopLeft(s))
  {
    StepKeepsInv(s, step);
  }

  /** How many of its own steps a push still has to the point where it enters anew. */
  function PushLeft<T>(s: State<T>): nat {
    match s.push
    case Published => 7
    case NotPushing => 6
    case HeadRead(_, _) => 5
    case RoomSeen(_, _, _) => 4
    case Writing(_, _) => 3
    case Written(_, _) => 2
  }

  function NextPushStep<T>(s: State<T>, any: T): Step<T> {
    match s.push
    case Published => Release
    case NotPushing => LoadOwnHead(any)
    case HeadRead(_, _) => LoadTail
    case RoomSeen(_, _, _) => BeginWrite(any)
    case Writing(_, _) => EndWrite
    case Written(_, _) => StoreHead
  }

  /** A plain pop under way in a ring that can hold anything can be brought to succeed, and leaves a permit to spare. */
  lemma {:induction false} PlainPopLeavesSpare<T>(s: State<T>) returns (steps: seq<Step<T>>)
    requires Inv(s) && PlainPop(s) && s.capacity > 1
    ensures Possible(s, steps) && WaitsAlways(steps) && AboutToWaste(After(s, steps))
    decreases PopLeft(s), Items(s) == 0, PushLeft(s)
  {
    var step := if s.pop.TailRead? && PopFails(s) then NextPushStep(s, s.buffer[0]) else NextPopStep(s);
    PlainStep(s, step);
    var s' := Apply(s, step);
    var rest;
    if PlainPop(s') {
      rest := PlainPopLeavesSpare(s');
    } else {
      rest := SpareIsWasted(s');
    }
    steps := OneMore(s, step, rest);
  }

  lemma PlainStep<T>(s: State<T>, step: Step<T>)
    requires Inv(s) && PlainPop(s) && s.capacity > 1
    requires step == if s.pop.TailRead? && PopFails(s) then NextPushStep(s, s.buffer[0]) else NextPopStep(s)
    ensures Enabled(s, step) && !step.SkipAcquire?
    ensures var s' := Apply(s, step);
            && Inv(s') && s'.capacity == s.capacity
            && (if PlainPop(s') then
                  PopLeft(s') < PopLeft(s) ||
                  (PopLeft(s') == PopLeft(s) && Items(s) == 0 && (Items(s') != 0 || PushLeft(s') < PushLeft(s)))
                else s'.bare > s'.wasted)
  {
    assert Enabled(s, step);
    var s' := Apply(s, step);
    StepKeepsInv(s, step);
    StepRefinesQueue(s, step);
    ContentsArePending(s);
    ContentsArePending(s');
    FailsExactly(s);
  }

  /**
   From any state of any run: waiting pops alone can never waste a permit if and only if there is none to spare,
   and no plain pop under way that could leave one.
   */
  lemma NeverWastesExactly<T(!new)>(s: State<T>)
    requires Inv(s)
    ensures NeverWastes(s) <==> Tight(s)
  {
    if Tight(s) {
      forall steps | Possible(s, steps) && WaitsAlways(steps)
        ensures !AboutToWaste(After(s, steps))
      {
        TightNeverWastes(s, steps);
      }
    } else if PlainPop(s) && s.capacity > 1 {
      var steps := PlainPopLeavesSpare(s);
    } else if !PlainPop(s) {
      var steps := SpareIsWasted(s);
    } else {
      var steps := PlainPopThenSpare(s);
    }
  }

  /** Taking the only item with a plain pop leaves a permit that the next waiting pop wastes. */
  lemma BarePopWastesPermit<T>(s: State<T>, torn: T)
    requires InRange(s) && MaskOk(s.capacity) && s.push.NotPushing? && s.pop.NotPopping?
    requires s.permits > 0
    requires !IsEmpty(s) && Next(s.tail, s.capacity) == s.head
    ensures var steps := PopSteps(torn) + ([Acquire] + ([LoadOwnTail] + []));
            && Possible(s, steps)
            && var s' := After(s, steps);
            s'.pop == TailRead(true, s.head) && PopFails(s')
  {
    UndisturbedPop(s, torn);
    var s2 := After(s, PopSteps(torn));
    var s3 := s2.(permits := s2.permits - 1, pop := Entered(true));
    StepThen(s3, LoadOwnTail, []);
    StepThen(s2, Acquire, [LoadOwnTail] + []);
    RunThenRun(s, PopSteps(torn), [Acquire] + ([LoadOwnTail] + []));
  }

  /** Mixing the two kinds of pop does waste one: push, plain pop, then a waiting pop finds nothing. */
  lemma MixedPopsWaste(item: int)
    ensures var s0 := Start(2, [0, 0]);
            var steps := PushSteps(item, 0) + (PopSteps(0) + ([Acquire] + ([LoadOwnTail] + [])));
            && MaskOk(2) && Possible(s0, steps)
            && var s := After(s0, steps);
            s.pop.TailRead? && s.pop.held && PopFails(s)
  {
    var s0 := Start(2, [0, 0]);
    assert MaskOk(2) && Next(0, 2) == 1 by {
      assert And(1, 1) == 1 && And(2, 1) == 0;
    }
    UndisturbedPush(s0, item, 0);
    BarePopWastesPermit(After(s0, PushSteps(item, 0)), 0);
    RunThenRun(s0, PushSteps(item, 0), PopSteps(0) + ([Acquire] + ([LoadOwnTail] + [])));
  }
}
