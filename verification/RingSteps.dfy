/**
 The single-producer single-consumer ring as two threads that interleave at every atomic load, atomic
 store, slot access and semaphore operation. Either thread may act on copies of the indices that have
 since gone stale, a slot being written holds anything, and a read that a write overlaps returns anything.
 */
module RingSteps {
  import opened BitMask

  /** Where a push stands, with the copies it works on. */
  datatype Pushing<T> =
    | NotPushing
    | HeadRead(item: T, head: nat)
    | RoomSeen(item: T, head: nat, tail: nat)
    | Writing(item: T, head: nat)
    | Written(item: T, head: nat)
    | Published

  /**
   Where a pop stands; `held` says it came with a permit of the semaphore, `disturbed` that a write touched
   the slot while it was being read.
   */
  datatype Popping<T> =
    | NotPopping
    | Entered(held: bool)
    | TailRead(held: bool, tail: nat)
    | ItemSeen(held: bool, tail: nat, head: nat)
    | Reading(held: bool, tail: nat, seen: T, disturbed: bool)
    | ReadDone(held: bool, tail: nat, value: T)

  /**
   The shared memory, both threads, and a record of the run: items published and items taken, how many
   pops succeeded without a permit, how many permits were spent on a pop that found nothing.
   */
  datatype State<T> = State(
    capacity: nat,
    buffer: seq<T>,
    head: nat,
    tail: nat,
    permits: nat,
    push: Pushing<T>,
    pop: Popping<T>,
    pushed: seq<T>,
    popped: seq<T>,
    bare: nat,
    wasted: nat)

  datatype Step<T> =
    | LoadOwnHead(item: T)
    | LoadTail
    | BeginWrite(torn: T)
    | EndWrite
    | StoreHead
    | Release
    | Acquire
    | TimeOut
    | SkipAcquire
    | LoadOwnTail
    | LoadHead
    | BeginRead
    | EndRead(torn: T)
    | StoreTail

  predicate Producers<T>(step: Step<T>) {
    step.LoadOwnHead? || step.LoadTail? || step.BeginWrite? || step.EndWrite? || step.StoreHead? || step.Release?
  }

  predicate InRange<T>(s: State<T>) {
    && s.capacity > 0 && |s.buffer| == s.capacity && s.head < s.capacity && s.tail < s.capacity
    && (s.push.HeadRead? || s.push.RoomSeen? || s.push.Writing? || s.push.Written? ==> s.push.head < s.capacity)
    && (s.pop.TailRead? || s.pop.ItemSeen? || s.pop.Reading? || s.pop.ReadDone? ==> s.pop.tail < s.capacity)
  }

  predicate Enabled<T>(s: State<T>, step: Step<T>) {
    && InRange(s)
    && match step
       case LoadOwnHead(_) => s.push.NotPushing?
       case LoadTail => s.push.HeadRead?
       case BeginWrite(_) => s.push.RoomSeen?
       case EndWrite => s.push.Writing?
       case StoreHead => s.push.Written?
       case Release => s.push.Published?
       case Acquire => s.pop.NotPopping? && s.permits > 0
       case TimeOut => s.pop.NotPopping?
       case SkipAcquire => s.pop.NotPopping?
       case LoadOwnTail => s.pop.Entered?
       case LoadHead => s.pop.TailRead?
       case BeginRead => s.pop.ItemSeen?
       case EndRead(_) => s.pop.Reading?
       case StoreTail => s.pop.ReadDone?
  }

  /** The push in flight is about to find the ring full and return false. */
  predicate PushFails<T>(s: State<T>)
    requires InRange(s) && s.push.HeadRead?
  {
    Next(s.push.head, s.capacity) == s.tail
  }

  /** The pop in flight is about to find the ring empty and return false. */
  predicate PopFails<T>(s: State<T>)
    requires s.pop.TailRead?
  {
    s.head == s.pop.tail
  }

  /** A read in flight of the slot being written is disturbed. */
  function Disturb<T>(pop: Popping<T>, slot: nat): Popping<T> {
    if pop.Reading? && pop.tail == slot then pop.(disturbed := true) else pop
  }

  function Apply<T(==)>(s: State<T>, step: Step<T>): State<T>
    requires Enabled(s, step)
  {
    match step
    case LoadOwnHead(item) => s.(push := HeadRead(item, s.head))
    case LoadTail =>
      s.(push := if PushFails(s) then NotPushing else RoomSeen(s.push.item, s.push.head, s.tail))
    case BeginWrite(torn) =>
      s.(push := Writing(s.push.item, s.push.head), buffer := s.buffer[s.push.head := torn],
         pop := Disturb(s.pop, s.push.head))
    case EndWrite =>
      s.(push := Written(s.push.item, s.push.head), buffer := s.buffer[s.push.head := s.push.item],
         pop := Disturb(s.pop, s.push.head))
    case StoreHead =>
      s.(push := Published, head := Next(s.push.head, s.capacity), pushed := s.pushed + [s.push.item])
    case Release => s.(push := NotPushing, permits := s.permits + 1)
    case Acquire => s.(pop := Entered(true), permits := s.permits - 1)
    case TimeOut => s
    case SkipAcquire => s.(pop := Entered(false))
    case LoadOwnTail => s.(pop := TailRead(s.pop.held, s.tail))
    case LoadHead =>
      if PopFails(s) then s.(pop := NotPopping, wasted := s.wasted + if s.pop.held then 1 else 0)
      else s.(pop := ItemSeen(s.pop.held, s.pop.tail, s.head))
    case BeginRead =>
      var overlapped := s.push.Writing? && s.push.head == s.pop.tail;
      s.(pop := Reading(s.pop.held, s.pop.tail, s.buffer[s.pop.tail], overlapped))
    case EndRead(torn) =>
      s.(pop := ReadDone(s.pop.held, s.pop.tail, if s.pop.disturbed then torn else s.pop.seen))
    case StoreTail =>
      s.(pop := NotPopping, tail := Next(s.pop.tail, s.capacity), popped := s.popped + [s.pop.value],
         bare := s.bare + if s.pop.held then 0 else 1)
  }

  function Start<T>(capacity: nat, buffer: seq<T>): State<T> {
    State(capacity, buffer, 0, 0, 0, NotPushing, NotPopping, [], [], 0, 0)
  }

  // ----- the invariant -----

  function Items<T>(s: State<T>): int {
    Dist(s.tail, s.head, s.capacity)
  }

  /** The `i`-th item from the tail. */
  function ItemAt<T>(s: State<T>, i: nat): T
    requires InRange(s) && i < s.capacity
  {
    s.buffer[Wrap(s.tail + i, s.capacity)]
  }

  /** What lies between tail and head, in order. */
  function Contents<T>(s: State<T>): seq<T>
    requires InRange(s)
  {
    seq(Items(s), i requires 0 <= i < Items(s) => ItemAt(s, i))
  }

  /** The ring holds exactly what was published and not yet taken. */
  ghost predicate Fifo<T>(s: State<T>)
    requires InRange(s)
  {
    && |s.pushed| == |s.popped| + Items(s) && s.popped <= s.pushed
    && forall i :: 0 <= i < Items(s) ==> ItemAt(s, i) == s.pushed[|s.popped| + i]
  }

  /** What the producer's copies still guarantee, however stale. */
  ghost predicate PushOk<T>(s: State<T>)
    requires InRange(s)
  {
    match s.push
    case NotPushing | Published => true
    case HeadRead(_, h) => h == s.head
    case RoomSeen(_, h, t) =>
      h == s.head && t < s.capacity && Items(s) <= Dist(t, h, s.capacity) < s.capacity - 1
    case Writing(_, h) => h == s.head && Items(s) < s.capacity - 1
    case Written(item, h) => h == s.head && Items(s) < s.capacity - 1 && s.buffer[h] == item
  }

  /** What the consumer's copies still guarantee. */
  ghost predicate PopOk<T>(s: State<T>)
    requires InRange(s)
  {
    match s.pop
    case NotPopping | Entered(_) => true
    case TailRead(_, t) => t == s.tail
    case ItemSeen(_, t, h) => t == s.tail && h < s.capacity && 0 < Dist(t, h, s.capacity) <= Items(s)
    case Reading(_, t, seen, disturbed) => t == s.tail && Items(s) > 0 && seen == s.buffer[t] && !disturbed
    case ReadDone(_, t, value) => t == s.tail && Items(s) > 0 && value == s.buffer[t]
  }

  function HeldPermits<T>(s: State<T>): nat {
    if !s.pop.NotPopping? && s.pop.held then 1 else 0
  }

  function DuePermits<T>(s: State<T>): nat {
    if s.push.Published? then 1 else 0
  }

  /** Every published item has its permit: in the semaphore, in the consumer's hand, about to be released, or wasted. */
  predicate Accounted<T>(s: State<T>) {
    s.permits + HeldPermits(s) + DuePermits(s) + s.wasted == Items(s) + s.bare && s.wasted <= s.bare
  }

  ghost predicate Inv<T>(s: State<T>) {
    InRange(s) && MaskOk(s.capacity) && Fifo(s) && PushOk(s) && PopOk(s) && Accounted(s)
  }

  lemma StartIsInv<T>(capacity: nat, buffer: seq<T>)
    requires MaskOk(capacity) && |buffer| == capacity
    ensures Inv(Start(capacity, buffer))
  {
  }

  lemma StoreHeadKeepsFifo<T>(s: State<T>, s': State<T>, item: T)
    requires InRange(s) && Fifo(s) && Items(s) < s.capacity - 1 && s.buffer[s.head] == item
    requires InRange(s') && s'.head == Wrap(s.head + 1, s.capacity) && s'.pushed == s.pushed + [item]
    requires s'.capacity == s.capacity && s'.buffer == s.buffer && s'.tail == s.tail && s'.popped == s.popped
    ensures Items(s') == Items(s) + 1 && Fifo(s')
  {
    assert forall i :: 0 <= i < Items(s) ==> ItemAt(s', i) == ItemAt(s, i);
    assert ItemAt(s', Items(s)) == item;
  }

  lemma StoreTailKeepsFifo<T>(s: State<T>, s': State<T>)
    requires InRange(s) && Fifo(s) && Items(s) > 0
    requires InRange(s') && s'.tail == Wrap(s.tail + 1, s.capacity) && s'.popped == s.popped + [s.buffer[s.tail]]
    requires s'.capacity == s.capacity && s'.buffer == s.buffer && s'.head == s.head && s'.pushed == s.pushed
    ensures Items(s') == Items(s) - 1 && Fifo(s')
  {
    assert ItemAt(s, 0) == s.buffer[s.tail];
    assert forall i :: 0 <= i < Items(s') ==> ItemAt(s', i) == ItemAt(s, i + 1);
  }

  lemma ProducerKeepsFifo<T>(s: State<T>, step: Step<T>)
    requires Inv(s) && Enabled(s, step) && Producers(step)
    ensures InRange(Apply(s, step)) && Fifo(Apply(s, step))
    ensures Items(Apply(s, step)) == Items(s) + if step.StoreHead? then 1 else 0
  {
    NextWraps(s.head, s.capacity);
    var s' := Apply(s, step);
    if step.StoreHead? {
      StoreHeadKeepsFifo(s, s', s.push.item);
    } else {
      assert forall i :: 0 <= i < Items(s) ==> ItemAt(s', i) == ItemAt(s, i);
    }
  }

  lemma ProducerKeepsCopies<T>(s: State<T>, step: Step<T>)
    requires Inv(s) && Enabled(s, step) && Producers(step)
    requires InRange(Apply(s, step)) && Items(Apply(s, step)) == Items(s) + if step.StoreHead? then 1 else 0
    ensures PushOk(Apply(s, step)) && PopOk(Apply(s, step))
  {
    NextWraps(s.head, s.capacity);
  }

  lemma ProducerKeepsInv<T>(s: State<T>, step: Step<T>)
    requires Inv(s) && Enabled(s, step) && Producers(step)
    ensures Inv(Apply(s, step))
  {
    ProducerKeepsFifo(s, step);
    ProducerKeepsCopies(s, step);
  }

  lemma ConsumerKeepsFifo<T>(s: State<T>, step: Step<T>)
    requires Inv(s) && Enabled(s, step) && !Producers(step)
    ensures InRange(Apply(s, step)) && Fifo(Apply(s, step))
    ensures Items(Apply(s, step)) == Items(s) - if step.StoreTail? then 1 else 0
  {
    NextWraps(s.tail, s.capacity);
    var s' := Apply(s, step);
    if step.StoreTail? {
      StoreTailKeepsFifo(s, s');
    } else {
      SameFifo(s, s');
    }
  }

  lemma SameFifo<T>(s: State<T>, s': State<T>)
    requires InRange(s) && Fifo(s) && InRange(s') && s'.capacity == s.capacity && s'.buffer == s.buffer
    requires s'.head == s.head && s'.tail == s.tail && s'.pushed == s.pushed && s'.popped == s.popped
    ensures Fifo(s') && Items(s') == Items(s)
  {
    assert forall i :: 0 <= i < Items(s) ==> ItemAt(s', i) == ItemAt(s, i);
  }

  lemma ConsumerKeepsCopies<T>(s: State<T>, step: Step<T>)
    requires Inv(s) && Enabled(s, step) && !Producers(step)
    requires InRange(Apply(s, step)) && Items(Apply(s, step)) == Items(s) - if step.StoreTail? then 1 else 0
    ensures PushOk(Apply(s, step)) && PopOk(Apply(s, step)) && Accounted(Apply(s, step))
  {
    NextWraps(s.tail, s.capacity);
  }

  lemma ConsumerKeepsInv<T>(s: State<T>, step: Step<T>)
    requires Inv(s) && Enabled(s, step) && !Producers(step)
    ensures Inv(Apply(s, step))
  {
    ConsumerKeepsFifo(s, step);
    ConsumerKeepsCopies(s, step);
  }

  lemma StepKeepsInv<T>(s: State<T>, step: Step<T>)
    requires Inv(s) && Enabled(s, step)
    ensures Inv(Apply(s, step))
  {
    if Producers(step) {
      ProducerKeepsInv(s, step);
    } else {
      ConsumerKeepsInv(s, step);
    }
  }

  // ----- one step against a bounded queue -----

  datatype QueueAction<T> = Stutter | Enqueue(item: T) | FoundFull | Dequeue(item: T) | FoundEmpty

  /** What a step means to a queue: each call takes effect, or fails, at one step of its own. */
  function Action<T(==)>(s: State<T>, step: Step<T>): QueueAction<T>
    requires Enabled(s, step)
  {
    match step
    case LoadTail => if PushFails(s) then FoundFull else Stutter
    case StoreHead => Enqueue(s.push.item)
    case LoadHead => if PopFails(s) then FoundEmpty else Stutter
    case StoreTail => Dequeue(s.pop.value)
    case _ => Stutter
  }

  /** A queue that holds at most one item less than the ring has slots. */
  predicate QueueStep<T(==)>(capacity: nat, q: seq<T>, action: QueueAction<T>, q': seq<T>) {
    match action
    case Stutter => q' == q
    case Enqueue(item) => |q| < capacity - 1 && q' == q + [item]
    case FoundFull => |q| == capacity - 1 && q' == q
    case Dequeue(item) => q != [] && item == q[0] && q' == q[1..]
    case FoundEmpty => q == [] && q' == q
  }

  lemma ContentsArePending<T>(s: State<T>)
    requires InRange(s) && Fifo(s)
    ensures Contents(s) == s.pushed[|s.popped|..] && |Contents(s)| == Items(s) < s.capacity
  {
  }

  /** A push fails exactly when the ring is full at the load of the tail, a pop exactly when it is empty. */
  lemma FailsExactly<T>(s: State<T>)
    requires Inv(s)
    ensures s.push.HeadRead? ==> (PushFails(s) <==> |Contents(s)| == s.capacity - 1)
    ensures s.pop.TailRead? ==> (PopFails(s) <==> Contents(s) == [])
  {
    ContentsArePending(s);
    NextWraps(s.head, s.capacity);
  }

  /** Every step of either thread is a step of the bounded queue: the ring is linearizable. */
  lemma StepRefinesQueue<T>(s: State<T>, step: Step<T>)
    requires Inv(s) && Enabled(s, step)
    ensures Inv(Apply(s, step)) && Apply(s, step).capacity == s.capacity
    ensures QueueStep(s.capacity, Contents(s), Action(s, step), Contents(Apply(s, step)))
  {
    var s' := Apply(s, step);
    StepKeepsInv(s, step);
    if step.StoreHead? {
      StoreHeadEnqueues(s, s');
    } else if step.StoreTail? {
      StoreTailDequeues(s, s');
    } else {
      assert Contents(s') == Contents(s) by {
        ContentsArePending(s);
        ContentsArePending(s');
      }
      FailsExactly(s);
    }
  }

  lemma StoreHeadEnqueues<T>(s: State<T>, s': State<T>)
    requires Inv(s) && Inv(s') && Enabled(s, StoreHead) && s' == Apply(s, StoreHead)
    ensures |Contents(s)| < s.capacity - 1 && Contents(s') == Contents(s) + [s.push.item]
  {
    ContentsArePending(s);
    ContentsArePending(s');
    assert (s.pushed + [s.push.item])[|s.popped|..] == s.pushed[|s.popped|..] + [s.push.item];
  }

  lemma StoreTailDequeues<T>(s: State<T>, s': State<T>)
    requires Inv(s) && Inv(s') && Enabled(s, StoreTail) && s' == Apply(s, StoreTail)
    ensures Contents(s) != [] && s.pop.value == Contents(s)[0] && Contents(s') == Contents(s)[1..]
  {
    ContentsArePending(s);
    ContentsArePending(s');
    var n := |s.popped|;
    assert s.pushed[n + 1..] == s.pushed[n..][1..];
    assert ItemAt(s, 0) == s.buffer[s.tail];
  }

  // ----- exclusive slots -----

  /** The producer has a slot to itself, from seeing room to publishing. */
  predicate OwnsHead<T>(s: State<T>) {
    s.push.RoomSeen? || s.push.Writing? || s.push.Written?
  }

  /** The consumer has a slot to itself, from seeing an item to giving the slot back. */
  predicate OwnsTail<T>(s: State<T>) {
    s.pop.ItemSeen? || s.pop.Reading? || s.pop.ReadDone?
  }

  predicate SlotsApart<T>(s: State<T>) {
    OwnsHead(s) && OwnsTail(s) ==> s.push.head != s.pop.tail
  }

  lemma InvMeansApart<T>(s: State<T>)
    requires Inv(s)
    ensures SlotsApart(s)
  {
  }

  /** A read never sees a torn item, whatever the producer did meanwhile. */
  lemma NeverTorn<T>(s: State<T>, torn: T)
    requires Inv(s) && s.pop.Reading?
    ensures Contents(s) != [] && Apply(s, EndRead(torn)).pop.value == Contents(s)[0]
  {
    ContentsArePending(s);
    assert ItemAt(s, 0) == s.buffer[s.tail];
  }

  // ----- runs -----

  /** Each step is possible where it is taken. */
  predicate Possible<T(==)>(s: State<T>, steps: seq<Step<T>>)
    decreases |steps|
  {
    steps == [] || (Enabled(s, steps[0]) && Possible(Apply(s, steps[0]), steps[1..]))
  }

  function After<T(==)>(s: State<T>, steps: seq<Step<T>>): State<T>
    requires Possible(s, steps)
    decreases |steps|
  {
    if steps == [] then s else After(Apply(s, steps[0]), steps[1..])
  }

  lemma {:induction false} RunKeepsInv<T>(s: State<T>, steps: seq<Step<T>>)
    requires Inv(s) && Possible(s, steps)
    ensures Inv(After(s, steps)) && After(s, steps).capacity == s.capacity
    decreases |steps|
  {
    if steps != [] {
      StepKeepsInv(s, steps[0]);
      RunKeepsInv(Apply(s, steps[0]), steps[1..]);
    }
  }

  /**
   Under every interleaving, what was taken followed by what lies between tail and head is what was
   published, in order; one slot at least is free; and the threads never share a slot.
   */
  lemma FifoUnderEveryInterleaving<T>(capacity: nat, buffer: seq<T>, steps: seq<Step<T>>)
    requires MaskOk(capacity) && |buffer| == capacity && Possible(Start(capacity, buffer), steps)
    ensures var s := After(Start(capacity, buffer), steps);
            && InRange(s) && s.popped + Contents(s) == s.pushed && |Contents(s)| <= capacity - 1
            && SlotsApart(s)
  {
    StartIsInv(capacity, buffer);
    RunKeepsInv(Start(capacity, buffer), steps);
    ContentsArePending(After(Start(capacity, buffer), steps));
    InvMeansApart(After(Start(capacity, buffer), steps));
  }

  // ----- what a thread may rely on between its own calls -----

  predicate AllOf<T>(steps: seq<Step<T>>, producers: bool) {
    forall i :: 0 <= i < |steps| ==> Producers(steps[i]) == producers
  }

  predicate IsFull<T>(s: State<T>)
    requires s.capacity > 0
  {
    Next(s.head, s.capacity) == s.tail
  }

  predicate IsEmpty<T>(s: State<T>) {
    s.head == s.tail
  }

  lemma FullExactly<T>(s: State<T>)
    requires Inv(s)
    ensures IsFull(s) <==> Items(s) == s.capacity - 1
    ensures IsEmpty(s) <==> Items(s) == 0
  {
    NextWraps(s.head, s.capacity);
  }

  /** A producer that saw room may push: the consumer alone never fills the ring. */
  lemma {:induction false} RoomStays<T>(s: State<T>, steps: seq<Step<T>>)
    requires Inv(s) && !IsFull(s) && Possible(s, steps) && AllOf(steps, false)
    ensures After(s, steps).capacity == s.capacity && !IsFull(After(s, steps))
    decreases |steps|
  {
    if steps != [] {
      var s' := Apply(s, steps[0]);
      StepRefinesQueue(s, steps[0]);
      ContentsArePending(s);
      ContentsArePending(s');
      FullExactly(s);
      FullExactly(s');
      RoomStays(s', steps[1..]);
    }
  }

  /** A consumer that saw an item may pop: the producer alone never empties the ring. */
  lemma {:induction false} ItemStays<T>(s: State<T>, steps: seq<Step<T>>)
    requires Inv(s) && !IsEmpty(s) && Possible(s, steps) && AllOf(steps, true)
    ensures !IsEmpty(After(s, steps))
    decreases |steps|
  {
    if steps != [] {
      var s' := Apply(s, steps[0]);
      StepRefinesQueue(s, steps[0]);
      ContentsArePending(s);
      ContentsArePending(s');
      FullExactly(s);
      FullExactly(s');
      ItemStays(s', steps[1..]);
    }
  }

  // ----- whole calls -----

  lemma StepThen<T>(s: State<T>, step: Step<T>, rest: seq<Step<T>>)
    requires Enabled(s, step) && Possible(Apply(s, step), rest)
    ensures Possible(s, [step] + rest) && After(s, [step] + rest) == After(Apply(s, step), rest)
  {
    assert ([step] + rest)[1..] == rest;
  }

  /** A whole push, undisturbed. */
  function PushSteps<T>(item: T, torn: T): seq<Step<T>> {
    [LoadOwnHead(item)] + ([LoadTail] + ([BeginWrite(torn)] + ([EndWrite] + ([StoreHead] + ([Release] + [])))))
  }

  lemma UndisturbedPush<T>(s: State<T>, item: T, torn: T)
    requires InRange(s) && MaskOk(s.capacity) && s.push.NotPushing? && s.pop.NotPopping? && !IsFull(s)
    ensures Possible(s, PushSteps(item, torn))
    ensures After(s, PushSteps(item, torn)) ==
            s.(buffer := s.buffer[s.head := item], head := Next(s.head, s.capacity),
               pushed := s.pushed + [item], permits := s.permits + 1)
  {
    NextWraps(s.head, s.capacity);
    var s1 := s.(push := HeadRead(item, s.head));
    var s2 := s.(push := RoomSeen(item, s.head, s.tail));
    var s3 := s.(push := Writing(item, s.head), buffer := s.buffer[s.head := torn]);
    var s4 := s.(push := Written(item, s.head), buffer := s.buffer[s.head := item]);
    assert s.buffer[s.head := torn][s.head := item] == s.buffer[s.head := item];
    var s5 := s4.(push := Published, head := Next(s.head, s.capacity), pushed := s.pushed + [item]);
    StepThen(s5, Release, []);
    StepThen(s4, StoreHead, [Release] + []);
    StepThen(s3, EndWrite, [StoreHead] + ([Release] + []));
    StepThen(s2, BeginWrite(torn), [EndWrite] + ([StoreHead] + ([Release] + [])));
    StepThen(s1, LoadTail, [BeginWrite(torn)] + ([EndWrite] + ([StoreHead] + ([Release] + []))));
    StepThen(s, LoadOwnHead(item), [LoadTail] + ([BeginWrite(torn)] + ([EndWrite] + ([StoreHead] + ([Release] + [])))));
  }

  /** A whole pop without a permit, undisturbed. */
  function PopSteps<T>(torn: T): seq<Step<T>> {
    [SkipAcquire] + ([LoadOwnTail] + ([LoadHead] + ([BeginRead] + ([EndRead(torn)] + ([StoreTail] + [])))))
  }

  lemma UndisturbedPop<T>(s: State<T>, torn: T)
    requires InRange(s) && MaskOk(s.capacity) && s.push.NotPushing? && s.pop.NotPopping? && !IsEmpty(s)
    ensures Possible(s, PopSteps(torn))
    ensures After(s, PopSteps(torn)) ==
            s.(tail := Next(s.tail, s.capacity), popped := s.popped + [s.buffer[s.tail]], bare := s.bare + 1)
  {
    NextWraps(s.tail, s.capacity);
    var value := s.buffer[s.tail];
    var s1 := s.(pop := Entered(false));
    var s2 := s.(pop := TailRead(false, s.tail));
    var s3 := s.(pop := ItemSeen(false, s.tail, s.head));
    var s4 := s.(pop := Reading(false, s.tail, value, false));
    var s5 := s.(pop := ReadDone(false, s.tail, value));
    StepThen(s5, StoreTail, []);
    StepThen(s4, EndRead(torn), [StoreTail] + []);
    StepThen(s3, BeginRead, [EndRead(torn)] + ([StoreTail] + []));
    StepThen(s2, LoadHead, [BeginRead] + ([EndRead(torn)] + ([StoreTail] + [])));
    StepThen(s1, LoadOwnTail, [LoadHead] + ([BeginRead] + ([EndRead(torn)] + ([StoreTail] + []))));
    StepThen(s, SkipAcquire, [LoadOwnTail] + ([LoadHead] + ([BeginRead] + ([EndRead(torn)] + ([StoreTail] + [])))));
  }

  lemma {:induction false} RunThenRun<T>(s: State<T>, a: seq<Step<T>>, b: seq<Step<T>>)
    requires Possible(s, a) && Possible(After(s, a), b)
    ensures Possible(s, a + b) && After(s, a + b) == After(After(s, a), b)
    decreases |a|
  {
    if a == [] {
      assert a + b == b;
    } else {
      RunThenRun(Apply(s, a[0]), a[1..], b);
      assert a + b == [a[0]] + (a[1..] + b);
      StepThen(s, a[0], a[1..] + b);
    }
  }
}
