/** The ring buffer used by one thread at a time: a bounded first-in first-out queue. */
module RingBuffers {
  import opened BitMask
  import opened RingSteps

  class RingBuffer<T> {
    const capacity: nat
    const buffer: array<T>
    var head: nat
    var tail: nat
    var itemAvailable: nat

    /** The memory with no call in flight. */
    ghost function Memory(): State<T>
      reads this, buffer
    {
      State(capacity, buffer[..], head, tail, itemAvailable, NotPushing, NotPopping, [], [], 0, 0)
    }

    ghost predicate Valid()
      reads this, buffer
    {
      MaskOk(capacity) && capacity <= WORD && InRange(Memory())
    }

    /** The items held, oldest first. */
    ghost function Items(): seq<T>
      requires Valid()
      reads this, buffer
    {
      Contents(Memory())
    }

    constructor (capacity: nat, blank: T)
      requires MaskOk(capacity) && capacity <= WORD
      ensures Valid() && Items() == [] && itemAvailable == 0 && this.capacity == capacity
      ensures fresh(buffer)
    {
      this.capacity := capacity;
      buffer := new T[capacity](_ => blank);
      head, tail, itemAvailable := 0, 0, 0;
    }

    /** All but one of the slots can hold items; a push beyond that is refused and changes nothing. */
    method Push(item: T) returns (ok: bool)
      requires Valid()
      modifies this`head, this`itemAvailable, buffer
      ensures Valid()
      ensures ok <==> |old(Items())| < capacity - 1
      ensures Items() == if ok then old(Items()) + [item] else old(Items())
      ensures itemAvailable == old(itemAvailable) + if ok then 1 else 0
    {
      ghost var s := Memory();
      FullExactly(Remembered(s));
      var h := head;
      var nextHead := Next(h, capacity);
      if nextHead == tail {
        return false;
      }
      NextWraps(h, capacity);
      buffer[h] := item;
      head := nextHead;
      itemAvailable := itemAvailable + 1;
      Pushed(s, item, Memory());
      ok := true;
    }

    /** The oldest item leaves; with none there, nothing changes. */
    method Pop(into: T) returns (ok: bool, item: T)
      requires Valid()
      modifies this`tail
      ensures Valid()
      ensures ok <==> old(Items()) != []
      ensures if ok then old(Items()) == [item] + Items() else Items() == old(Items()) && item == into
    {
      ghost var s := Memory();
      item := into;
      var t := tail;
      var nextTail := Next(t, capacity);
      if head == t {
        return false, item;
      }
      NextWraps(t, capacity);
      item := buffer[t];
      tail := nextTail;
      Popped(s, Memory());
      ok := true;
    }

    /** Take a permit first; without one the wait times out. `gaveUp` is a wait that fails all the same. */
    method WaitPop(into: T, gaveUp: bool) returns (ok: bool, item: T)
      requires Valid()
      modifies this`tail, this`itemAvailable
      ensures Valid()
      ensures ok <==> !gaveUp && old(itemAvailable) > 0 && old(Items()) != []
      ensures if ok then old(Items()) == [item] + Items() else Items() == old(Items()) && item == into
      ensures itemAvailable == old(itemAvailable) - if !gaveUp && old(itemAvailable) > 0 then 1 else 0
    {
      if gaveUp || itemAvailable == 0 {
        return false, into;
      }
      itemAvailable := itemAvailable - 1;
      ok, item := Pop(into);
    }

    method Empty() returns (r: bool)
      requires Valid()
      ensures r <==> Items() == []
    {
      r := head == tail;
    }

    method Full() returns (r: bool)
      requires Valid()
      ensures r <==> |Items()| == capacity - 1
    {
      FullExactly(Remembered(Memory()));
      r := Next(head, capacity) == tail;
    }

    /** The masked difference of the indices counts the items, also when the head has wrapped behind the tail. */
    method Size() returns (n: nat)
      requires Valid()
      ensures n == |Items()|
    {
      MaskedDifference(head, tail, capacity);
      n := And(WordMinus(head, tail), capacity - 1);
    }
  }

  // ----- the queue inside the memory -----

  /** The memory, remembering its contents as if they were all that was ever published. */
  ghost function Remembered<T>(s: State<T>): (r: State<T>)
    requires InRange(s) && MaskOk(s.capacity) && s.push.NotPushing? && s.pop.NotPopping?
    ensures Inv(r) && Contents(r) == Contents(s) == r.pushed
  {
    var n := Dist(s.tail, s.head, s.capacity);
    var r := s.(pushed := Contents(s), popped := [], permits := n, bare := 0, wasted := 0);
    assert forall i :: 0 <= i < n ==> ItemAt(r, i) == ItemAt(s, i);
    r
  }

  lemma SameContents<T>(s: State<T>, s': State<T>)
    requires InRange(s) && InRange(s') && s'.capacity == s.capacity
    requires s'.buffer == s.buffer && s'.head == s.head && s'.tail == s.tail
    ensures Contents(s') == Contents(s)
  {
    assert forall i :: 0 <= i < Items(s) ==> ItemAt(s', i) == ItemAt(s, i);
  }

  lemma Pushed<T>(s: State<T>, item: T, s': State<T>)
    requires InRange(s) && MaskOk(s.capacity) && s.push.NotPushing? && s.pop.NotPopping? && InRange(s')
    requires Items(s) < s.capacity - 1 && s'.capacity == s.capacity && s'.tail == s.tail
    requires s'.buffer == s.buffer[s.head := item] && s'.head == Wrap(s.head + 1, s.capacity)
    ensures Contents(s') == Contents(s) + [item]
  {
    var r := Remembered(s);
    var r1 := r.(buffer := s'.buffer);
    WrittenAtHead(r, r1, item);
    var r2 := r1.(head := s'.head, pushed := r.pushed + [item]);
    StoreHeadKeepsFifo(r1, r2, item);
    assert Contents(r2) == r.pushed + [item] by {
      ContentsArePending(r2);
    }
    SameContents(r2, s');
  }

  lemma WrittenAtHead<T>(r: State<T>, r1: State<T>, item: T)
    requires InRange(r) && Fifo(r) && r1 == r.(buffer := r.buffer[r.head := item])
    ensures InRange(r1) && Fifo(r1)
  {
    assert forall i :: 0 <= i < Items(r) ==> ItemAt(r1, i) == ItemAt(r, i);
  }

  lemma Popped<T>(s: State<T>, s': State<T>)
    requires InRange(s) && MaskOk(s.capacity) && s.push.NotPushing? && s.pop.NotPopping? && InRange(s')
    requires Items(s) > 0 && s'.capacity == s.capacity && s'.head == s.head
    requires s'.buffer == s.buffer && s'.tail == Wrap(s.tail + 1, s.capacity)
    ensures Contents(s) == [s.buffer[s.tail]] + Contents(s')
  {
    var r := Remembered(s);
    var item := s.buffer[s.tail];
    var r2 := r.(tail := s'.tail, popped := [item]);
    assert Contents(s)[0] == item by {
      assert ItemAt(s, 0) == item;
    }
    assert Contents(r2) == r.pushed[1..] by {
      StoreTailKeepsFifo(r, r2);
      ContentsArePending(r2);
    }
    SameContents(r2, s');
    assert Contents(s) == [Contents(s)[0]] + Contents(s)[1..];
  }
}
