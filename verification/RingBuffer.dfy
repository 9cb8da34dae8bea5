/** What the queue is for: a bounded sequence of items. The effect of each call on its contents. */
module BoundedQueue {

  datatype Position = SendToBack | SendToFront | Overwrite

  /** A send is accepted when there is room, or when it overwrites. */
  predicate Accepts(queued: nat, length: nat, position: Position) {
    queued < length || position == Overwrite
  }

  function Send<T>(s: seq<T>, x: T, position: Position): seq<T> {
    match position
    case SendToBack => s + [x]
    case SendToFront => [x] + s
    case Overwrite => [x] + (if s == [] then [] else s[1..])
  }

  lemma SendIs<T>(s: seq<T>, x: T, position: Position)
    requires position == Overwrite ==> |s| <= 1
    ensures Send(s, x, position) ==
      if position == SendToBack then s + [x] else if position == SendToFront then [x] + s else [x]
  {
  }

  datatype Op<T> = Enqueue(x: T, position: Position) | Dequeue | Look

  /** A run of calls on a queue of the given length: what is left in it, what was accepted, what was handed out, and
      what was overwritten. */
  datatype History<T> = History(queued: seq<T>, sent: seq<T>, received: seq<T>, lost: seq<T>)

  function Step<T>(h: History<T>, op: Op<T>, length: nat): History<T> {
    match op
    case Enqueue(x, position) =>
      if Accepts(|h.queued|, length, position) then
        History(Send(h.queued, x, position), h.sent + [x], h.received,
                h.lost + if position == Overwrite then h.queued[..Least(|h.queued|, 1)] else [])
      else h
    case Dequeue => if h.queued == [] then h else History(h.queued[1..], h.sent, h.received + [h.queued[0]], h.lost)
    case Look => h
  }

  function Least(a: nat, b: nat): nat { if a < b then a else b }

  function Run<T>(h: History<T>, ops: seq<Op<T>>, length: nat): History<T>
    decreases |ops|
  {
    if ops == [] then h else Run(Step(h, ops[0], length), ops[1..], length)
  }

  /** First in, first out: with sends to the back only, the items received followed by the items still queued
      are the items accepted, in order; and the queue never holds more than its length. */
  lemma {:induction false} FirstInFirstOut<T>(h: History<T>, ops: seq<Op<T>>, length: nat)
    requires h.received + h.queued == h.sent && |h.queued| <= length
    requires forall op :: op in ops && op.Enqueue? ==> op.position == SendToBack
    ensures var end := Run(h, ops, length);
      end.received + end.queued == end.sent && |end.queued| <= length
    decreases |ops|
  {
    if ops != [] {
      var h' := Step(h, ops[0], length);
      assert ops[0] in ops;
      match ops[0] {
        case Enqueue(x, _) =>
        case Dequeue => if h.queued != [] { assert h.queued == [h.queued[0]] + h.queued[1..]; }
        case Look =>
      }
      assert h'.received + h'.queued == h'.sent;
      FirstInFirstOut(h', ops[1..], length);
    }
  }

  /** Wherever items are sent to, none is lost but those overwritten, and none is made up. */
  lemma {:induction false} ItemsConserved<T>(h: History<T>, ops: seq<Op<T>>, length: nat)
    requires multiset(h.sent) == multiset(h.received) + multiset(h.queued) + multiset(h.lost)
    ensures var end := Run(h, ops, length);
      multiset(end.sent) == multiset(end.received) + multiset(end.queued) + multiset(end.lost)
    decreases |ops|
  {
    if ops != [] {
      StepConserves(h, ops[0], length);
      ItemsConserved(Step(h, ops[0], length), ops[1..], length);
    }
  }

  lemma StepConserves<T>(h: History<T>, op: Op<T>, length: nat)
    requires multiset(h.sent) == multiset(h.received) + multiset(h.queued) + multiset(h.lost)
    ensures var h' := Step(h, op, length);
      multiset(h'.sent) == multiset(h'.received) + multiset(h'.queued) + multiset(h'.lost)
  {
    if op.Dequeue? && h.queued != [] {
      assert h.queued == [h.queued[0]] + h.queued[1..];
    } else if op.Enqueue? && op.position == Overwrite {
      OverwriteConserves(h.sent, h.received, h.queued, h.lost, op.x);
    } else if op.Enqueue? {
      assert h.lost + [] == h.lost;
      assert multiset(Send(h.queued, op.x, op.position)) == multiset(h.queued) + multiset{op.x};
    }
  }

  lemma OverwriteConserves<T>(sent: seq<T>, received: seq<T>, queued: seq<T>, lost: seq<T>, x: T)
    requires multiset(sent) == multiset(received) + multiset(queued) + multiset(lost)
    ensures multiset(sent + [x]) == multiset(received) + multiset(Send(queued, x, Overwrite))
      + multiset(lost + queued[..Least(|queued|, 1)])
  {
    assert queued == queued[..Least(|queued|, 1)] + queued[Least(|queued|, 1)..];
  }

  /** Only an overwrite loses an item. */
  lemma {:induction false} NothingLost<T>(h: History<T>, ops: seq<Op<T>>, length: nat)
    requires forall op :: op in ops && op.Enqueue? ==> op.position != Overwrite
    ensures Run(h, ops, length).lost == h.lost
    decreases |ops|
  {
    if ops != [] {
      assert ops[0] in ops;
      NothingLost(Step(h, ops[0], length), ops[1..], length);
    }
  }

  function ToFront<T>(xs: seq<T>): (ops: seq<Op<T>>)
    ensures |ops| == |xs|
  {
    if xs == [] then [] else [Enqueue(xs[0], SendToFront)] + ToFront(xs[1..])
  }

  function Dequeues<T>(n: nat): (ops: seq<Op<T>>) {
    if n == 0 then [] else Dequeues(n - 1) + [Dequeue]
  }

  function Reversed<T>(xs: seq<T>): (r: seq<T>)
    ensures |r| == |xs|
  {
    if xs == [] then [] else Reversed(xs[1..]) + [xs[0]]
  }

  /** Last in, first out: what is sent to the front of a queue with room for it is received next, the latest first, and
      then the queue is as before. */
  lemma {:induction false} LastInFirstOut<T>(h: History<T>, xs: seq<T>, length: nat)
    requires |h.queued| + |xs| <= length
    ensures Run(h, ToFront(xs) + Dequeues(|xs|), length)
         == h.(sent := h.sent + xs, received := h.received + Reversed(xs))
    decreases |xs|
  {
    if xs == [] {
      assert ToFront(xs) + Dequeues<T>(0) == [];
      assert h.sent + xs == h.sent && h.received + Reversed(xs) == h.received;
    } else {
      var x, rest := xs[0], xs[1..];
      var h' := Step(h, Enqueue(x, SendToFront), length);
      LastInFirstOut(h', rest, length);
      var ops := ToFront(rest) + Dequeues(|rest|);
      assert ToFront(xs) + Dequeues(|xs|) == [Enqueue(x, SendToFront)] + (ops + [Dequeue]);
      assert (ops + [Dequeue])[..|ops|] == ops && (ops + [Dequeue])[..|ops| + 1] == ops + [Dequeue];
      RunOneMore(h', ops + [Dequeue], |ops|, length);
      assert ([x] + h.queued)[1..] == h.queued && h.lost + [] == h.lost;
      assert h.sent + [x] + rest == h.sent + xs && h.received + Reversed(rest) + [x] == h.received + Reversed(xs);
    }
  }

  /** What was written over a queue of length one is what every later look finds, until it is received. */
  lemma LatestStays<T>(h: History<T>, x: T, looks: seq<Op<T>>)
    requires |h.queued| <= 1 && forall op :: op in looks ==> op.Look?
    ensures Run(h, [Enqueue(x, Overwrite)] + looks, 1).queued == [x]
  {
    assert ([Enqueue(x, Overwrite)] + looks)[1..] == looks;
    LooksChangeNothing(Step(h, Enqueue(x, Overwrite), 1), looks, 1);
  }

  lemma {:induction false} LooksChangeNothing<T>(h: History<T>, looks: seq<Op<T>>, length: nat)
    requires forall op :: op in looks ==> op.Look?
    ensures Run(h, looks, length) == h
    decreases |looks|
  {
    if looks != [] {
      assert looks[0] in looks;
      LooksChangeNothing(h, looks[1..], length);
    }
  }

  lemma {:induction false} RunOneMore<T>(h: History<T>, ops: seq<Op<T>>, i: nat, length: nat)
    requires i < |ops|
    ensures Run(h, ops[..i + 1], length) == Step(Run(h, ops[..i], length), ops[i], length)
    decreases i
  {
    if i > 0 {
      RunOneMore(Step(h, ops[0], length), ops[1..], i - 1, length);
      assert ops[..i][1..] == ops[1..][..i - 1] && ops[..i + 1][1..] == ops[1..][..i];
    }
  }
}

/** The storage area of queue.c: a byte array used as a ring of fixed-size slots. */
module RingBuffer {
  import opened BoundedQueue

  newtype byte = x: int | 0 <= x < 256
  type Item = seq<byte>

  /** k modulo n, for the k that occur: at most one turn ahead, or exactly two. */
  function Turn(k: nat, n: nat): (r: nat)
    requires n > 0 && k <= 2 * n
    ensures r < n
  {
    if k < n then k else if k < 2 * n then k - n else 0
  }

  /** n items of a ring of slots, starting behind slot r. */
  function Pick(slots: seq<Item>, r: nat, n: nat): (s: seq<Item>)
    requires r < |slots| && n <= |slots|
    ensures |s| == n && forall i :: 0 <= i < n ==> s[i] == slots[Turn(r + 1 + i, |slots|)]
  {
    if n == 0 then [] else Pick(slots, r, n - 1) + [slots[Turn(r + n, |slots|)]]
  }

  /** The slot behind the last item, which is free when there is room. */
  lemma PickAppend(slots: seq<Item>, r: nat, n: nat, item: Item)
    requires r < |slots| && n < |slots|
    ensures Pick(slots[Turn(r + 1 + n, |slots|) := item], r, n + 1) == Pick(slots, r, n) + [item]
  {}

  function Pred(k: nat, n: nat): (r: nat)
    requires k < n
    ensures r < n
  {
    if k > 0 then k - 1 else n - 1
  }

  /** The slot last read from, which is free when there is room. */
  lemma PickPrepend(slots: seq<Item>, r: nat, n: nat, item: Item)
    requires r < |slots| && n < |slots|
    ensures Pick(slots[r := item], Pred(r, |slots|), n + 1) == [item] + Pick(slots, r, n)
  {
    var was, now := Pick(slots, r, n), Pick(slots[r := item], Pred(r, |slots|), n + 1);
    forall i | 0 <= i <= n ensures now[i] == ([item] + was)[i] {
      TurnFromPred(r, i, |slots|);
      assert now[i] == slots[r := item][Turn(Pred(r, |slots|) + 1 + i, |slots|)];
      if i > 0 { assert was[i - 1] == slots[Turn(r + 1 + (i - 1), |slots|)]; }
    }
  }

  lemma TurnFromPred(r: nat, i: nat, n: nat)
    requires r < n && i < n
    ensures Turn(Pred(r, n) + 1 + i, n) == if i == 0 then r else Turn(r + 1 + (i - 1), n)
    ensures i > 0 ==> Turn(r + 1 + (i - 1), n) != r
  {}

  /** The slot behind the last item stays where it is, when the first moves back by one. */
  lemma EndFromPred(r: nat, n: nat, length: nat, write: nat)
    requires r < length && n < length && write < length && (write == Turn(r + 1 + n, length) || length == 1)
    ensures write == Turn(Pred(r, length) + 1 + (n + 1), length)
  {}

  /** Nor does it move when the first goes. */
  lemma EndFromRest(r: nat, n: nat, length: nat)
    requires r < length && 0 < n <= length
    ensures Turn(r + 1 + n, length) == Turn(Turn(r + 1, length) + 1 + (n - 1), length)
  {}

  lemma PickRest(slots: seq<Item>, r: nat, n: nat)
    requires r < |slots| && 0 < n <= |slots|
    ensures Pick(slots, Turn(r + 1, |slots|), n - 1) == Pick(slots, r, n)[1..]
  {
    var was, now := Pick(slots, r, n), Pick(slots, Turn(r + 1, |slots|), n - 1);
    forall i | 0 <= i < n - 1 ensures now[i] == was[i + 1] {}
  }

  /** Slots do not overlap, and all lie inside n slots. */
  lemma SlotsApart(k: nat, m: nat, size: nat)
    requires k < m
    ensures k * size + size <= m * size
  {
    assert (k + 1) * size == k * size + size;
    if k + 1 < m { SlotsApart(k, m - 1, size); assert (m - 1) * size + size == m * size; }
  }

  lemma RunLaws(first: History<Item>, calls: seq<Op<Item>>, length: nat)
    requires first.sent == first.queued && first.received == [] && first.lost == [] && |first.queued| <= length
    ensures var end := Run(first, calls, length);
      && multiset(end.sent) == multiset(end.received) + multiset(end.queued) + multiset(end.lost)
      && ((forall c :: c in calls && c.Enqueue? ==> c.position != Overwrite) ==> end.lost == [])
      && ((forall c :: c in calls && c.Enqueue? ==> c.position == SendToBack) ==>
            end.received + end.queued == end.sent)
  {
    ItemsConserved(first, calls, length);
    if forall c :: c in calls && c.Enqueue? ==> c.position != Overwrite { NothingLost(first, calls, length); }
    if forall c :: c in calls && c.Enqueue? ==> c.position == SendToBack {
      assert first.received + first.queued == first.sent;
      FirstInFirstOut(first, calls, length);
    }
  }

  class Queue {
    const uxLength: nat
    const uxItemSize: nat
    /** uxLength * uxItemSize bytes. Positions in it are offsets from pcHead. */
    const storage: array<byte>
    const pcHead: nat := 0
    var pcTail: nat
    var pcWriteTo: nat
    var pcReadFrom: nat
    var uxMessagesWaiting: nat
    /** The slots pcWriteTo and pcReadFrom point at. */
    ghost var writeSlot: nat
    ghost var readSlot: nat

    ghost predicate Valid()
      reads this
    {
      && uxLength > 0 && storage.Length == pcTail == uxLength * uxItemSize
      && uxMessagesWaiting <= uxLength
      && readSlot < uxLength && pcReadFrom == readSlot * uxItemSize
      && writeSlot == Turn(readSlot + 1 + uxMessagesWaiting, uxLength) && pcWriteTo == writeSlot * uxItemSize
    }

    ghost function Slot(k: nat): (r: Item)
      requires k < uxLength && storage.Length == uxLength * uxItemSize
      reads storage
      ensures |r| == uxItemSize
    {
      SlotsApart(k, uxLength, uxItemSize);
      storage[k * uxItemSize..k * uxItemSize + uxItemSize]
    }

    ghost function Slots(): (r: seq<Item>)
      requires storage.Length == uxLength * uxItemSize
      reads storage
      ensures |r| == uxLength && forall k :: 0 <= k < uxLength ==> r[k] == Slot(k)
    {
      SlotsUpTo(uxLength)
    }

    ghost function SlotsUpTo(n: nat): (r: seq<Item>)
      requires storage.Length == uxLength * uxItemSize && n <= uxLength
      reads storage
      ensures |r| == n && forall k :: 0 <= k < n ==> r[k] == Slot(k)
    {
      if n == 0 then [] else SlotsUpTo(n - 1) + [Slot(n - 1)]
    }

    /** The items queued, the next one to be received first. */
    ghost function Contents(): (r: seq<Item>)
      requires Valid()
      reads this, storage
      ensures |r| == uxMessagesWaiting
    {
      Pick(Slots(), readSlot, uxMessagesWaiting)
    }

    constructor (uxLength: nat, uxItemSize: nat)
      requires uxLength > 0
      ensures Valid() && Contents() == [] && fresh(storage)
      ensures this.uxLength == uxLength && this.uxItemSize == uxItemSize
    {
      this.uxLength, this.uxItemSize := uxLength, uxItemSize;
      storage := new byte[uxLength * uxItemSize];
      pcTail, pcWriteTo, pcReadFrom, uxMessagesWaiting := 0, 0, 0, 0;
      new;
      Reset();
    }

    /** The part of xQueueGenericReset that concerns the storage. */
    method Reset()
      requires uxLength > 0 && storage.Length == uxLength * uxItemSize
      modifies this
      ensures Valid() && Contents() == []
    {
      pcTail := pcHead + uxLength * uxItemSize;
      uxMessagesWaiting := 0;
      pcWriteTo := pcHead;
      pcReadFrom := pcHead + (uxLength - 1) * uxItemSize;
      readSlot, writeSlot := uxLength - 1, 0;
    }

    /** memcpy into the storage area. */
    method CopyIn(offset: nat, item: Item)
      requires offset + |item| <= storage.Length
      modifies storage
      ensures storage[offset..offset + |item|] == item
      ensures forall k :: 0 <= k < storage.Length && !(offset <= k < offset + |item|) ==> storage[k] == old(storage[k])
    {
      for i := 0 to |item|
        invariant storage[offset..offset + i] == item[..i]
        invariant forall k :: 0 <= k < storage.Length && !(offset <= k < offset + i) ==> storage[k] == old(storage[k])
      {
        storage[offset + i] := item[i];
        assert storage[offset..offset + i + 1] == storage[offset..offset + i] + [item[i]];
      }
    }

    /** Writing one slot leaves the others alone. */
    method WriteSlot(offset: nat, item: Item, ghost k: nat)
      requires storage.Length == uxLength * uxItemSize && |item| == uxItemSize
      requires k < uxLength && offset == k * uxItemSize
      modifies storage
      ensures Slots() == old(Slots())[k := item]
    {
      SlotsApart(k, uxLength, uxItemSize);
      CopyIn(offset, item);
      forall j | 0 <= j < uxLength && j != k ensures Slot(j) == old(Slot(j)) {
        SlotsApart(j, uxLength, uxItemSize);
        if j < k { SlotsApart(j, k, uxItemSize); } else { SlotsApart(k, j, uxItemSize); }
      }
    }

    /** One slot forward, wrapping at pcTail: how pcWriteTo and pcReadFrom advance. */
    method Forward(p: nat, ghost k: nat) returns (q: nat)
      requires pcTail == uxLength * uxItemSize && uxItemSize > 0 && k < uxLength && p == k * uxItemSize
      ensures q == Turn(k + 1, uxLength) * uxItemSize
    {
      assert (k + 1) * uxItemSize == p + uxItemSize;
      if k + 1 < uxLength { SlotsApart(k + 1, uxLength, uxItemSize); }
      q := p + uxItemSize;
      if q >= pcTail {
        q := pcHead;
      }
    }

    /** One slot back, wrapping at pcHead: how pcReadFrom retreats. */
    method Back(p: nat, ghost k: nat) returns (q: nat)
      requires pcTail == uxLength * uxItemSize && uxItemSize > 0 && k < uxLength && p == k * uxItemSize
      ensures q == Pred(k, uxLength) * uxItemSize
    {
      assert (uxLength - 1) * uxItemSize == pcTail - uxItemSize;
      assert k > 0 ==> (k - 1) * uxItemSize == p - uxItemSize;
      if p - uxItemSize < pcHead {
        q := pcTail - uxItemSize;
      } else {
        q := p - uxItemSize;
      }
    }

    /** prvCopyDataToQueue, for a queue that is not a mutex. The room that xQueueGenericSend and its ISR
        version look for first is the precondition. The one send that is not kept in bounds is an overwrite
        of a full queue whose items have size zero. */
    method CopyDataToQueue(item: Item, xPosition: Position)
      requires Valid() && |item| == uxItemSize
      requires Accepts(uxMessagesWaiting, uxLength, xPosition) && (xPosition == Overwrite ==> uxLength == 1)
      modifies this, storage
      ensures Valid() <==> uxItemSize > 0 || old(uxMessagesWaiting) < uxLength
      ensures Valid() && xPosition == SendToBack ==> Contents() == old(Contents()) + [item]
      ensures Valid() && xPosition == SendToFront ==> Contents() == [item] + old(Contents())
      ensures Valid() && xPosition == Overwrite ==> Contents() == [item]
      ensures !Valid() ==> uxMessagesWaiting == uxLength + 1
    {
      if uxItemSize == 0 {
        ghost var was := Contents();
        uxMessagesWaiting := uxMessagesWaiting + 1;
        if uxMessagesWaiting <= uxLength {
          writeSlot := Turn(readSlot + 1 + uxMessagesWaiting, uxLength);
          assert Contents() == was + [item] == [item] + was;
        }
      } else if xPosition == SendToBack {
        AppendItem(item);
      } else {
        PrependItem(item, xPosition);
      }
    }

    /** The queueSEND_TO_BACK branch. */
    method AppendItem(item: Item)
      requires Valid() && |item| == uxItemSize > 0 && uxMessagesWaiting < uxLength
      modifies this, storage
      ensures Valid() && Contents() == old(Contents()) + [item]
    {
      PickAppend(Slots(), readSlot, uxMessagesWaiting, item);
      WriteSlot(pcWriteTo, item, writeSlot);
      pcWriteTo := Forward(pcWriteTo, writeSlot);
      writeSlot := Turn(writeSlot + 1, uxLength);
      uxMessagesWaiting := uxMessagesWaiting + 1;
    }

    /** The other branch: queueSEND_TO_FRONT, and queueOVERWRITE on a queue of length one. */
    method PrependItem(item: Item, xPosition: Position)
      requires Valid() && |item| == uxItemSize > 0 && xPosition != SendToBack
      requires Accepts(uxMessagesWaiting, uxLength, xPosition) && (xPosition == Overwrite ==> uxLength == 1)
      modifies this, storage
      ensures Valid() && Contents() == [item] + if xPosition == SendToFront then old(Contents()) else []
    {
      var messages := uxMessagesWaiting;
      if xPosition == Overwrite && messages > 0 {
        messages := messages - 1;
      }
      PutBefore(item, messages);
    }

    /** The item goes before the first of the messages that stay. */
    method PutBefore(item: Item, messages: nat)
      requires Valid() && |item| == uxItemSize > 0
      requires messages < uxLength && (messages == uxMessagesWaiting || uxLength == 1)
      modifies this, storage
      ensures Valid() && Contents() == [item] + old(Pick(Slots(), readSlot, messages))
    {
      PutBehindRead(item, messages);
      uxMessagesWaiting := messages + 1;
    }

    /** Copy into the slot last read from and move pcReadFrom back, so that the item is read next. */
    method PutBehindRead(item: Item, ghost n: nat)
      requires Valid() && |item| == uxItemSize > 0
      requires n < uxLength && (n == uxMessagesWaiting || uxLength == 1)
      modifies this`pcReadFrom, this`readSlot, storage
      ensures readSlot == Pred(old(readSlot), uxLength) && pcReadFrom == readSlot * uxItemSize
      ensures Pick(Slots(), readSlot, n + 1) == [item] + old(Pick(Slots(), readSlot, n))
      ensures writeSlot == Turn(readSlot + 1 + (n + 1), uxLength)
    {
      EndFromPred(readSlot, n, uxLength, writeSlot);
      PickPrepend(Slots(), readSlot, n, item);
      WriteSlot(pcReadFrom, item, readSlot);
      pcReadFrom := Back(pcReadFrom, readSlot);
      readSlot := Pred(readSlot, uxLength);
    }

    /** prvCopyDataFromQueue: step to the next slot and read it. The caller adjusts the count. */
    method CopyDataFromQueue() returns (item: Item)
      requires Valid() && uxMessagesWaiting > 0
      modifies this`pcReadFrom, this`readSlot
      ensures readSlot < uxLength && pcReadFrom == readSlot * uxItemSize
      ensures readSlot == Turn(old(readSlot) + 1, uxLength) && item == old(Contents())[0]
    {
      item := [];
      SlotsApart(Turn(readSlot + 1, uxLength), uxLength, uxItemSize);
      if uxItemSize != 0 {
        pcReadFrom := Forward(pcReadFrom, readSlot);
        item := storage[pcReadFrom..pcReadFrom + uxItemSize];
      }
      readSlot := Turn(readSlot + 1, uxLength);
    }

    /** The critical section of xQueueReceive and xQueueReceiveFromISR that copies an item out. */
    method Receive() returns (pass: bool, item: Item)
      requires Valid()
      modifies this
      ensures Valid() && pass == (old(Contents()) != [])
      ensures pass ==> item == old(Contents())[0] && Contents() == old(Contents())[1..]
      ensures !pass ==> Contents() == old(Contents())
    {
      pass, item := false, [];
      if uxMessagesWaiting > 0 {
        item := TakeHead();
        pass := true;
      }
    }

    method TakeHead() returns (item: Item)
      requires Valid() && uxMessagesWaiting > 0
      modifies this`pcReadFrom, this`readSlot, this`uxMessagesWaiting
      ensures Valid() && item == old(Contents())[0] && Contents() == old(Contents())[1..]
    {
      PickRest(Slots(), readSlot, uxMessagesWaiting);
      EndFromRest(readSlot, uxMessagesWaiting, uxLength);
      item := CopyDataFromQueue();
      uxMessagesWaiting := uxMessagesWaiting - 1;
    }

    /** The critical section of xQueuePeek and xQueuePeekFromISR. */
    method Peek() returns (pass: bool, item: Item)
      requires Valid()
      modifies this
      ensures Valid() && pass == (old(Contents()) != [])
      ensures pass ==> item == old(Contents())[0]
      ensures Contents() == old(Contents()) && pcReadFrom == old(pcReadFrom)
    {
      pass, item := false, [];
      if uxMessagesWaiting > 0 {
        var pcOriginalReadPosition := pcReadFrom;
        item := CopyDataFromQueue();
        pcReadFrom := pcOriginalReadPosition;
        readSlot := old(readSlot);
        pass := true;
      }
    }

    /** The critical section of xQueueGenericSend and xQueueGenericSendFromISR that copies an item in; a semaphore has
        items of size zero. */
    method GenericSend(item: Item, xPosition: Position) returns (pass: bool)
      requires Valid() && |item| == uxItemSize && (xPosition == Overwrite ==> uxLength == 1)
      modifies this, storage
      ensures pass <==> old(uxMessagesWaiting) < uxLength || xPosition == Overwrite
      ensures Valid() <==> uxItemSize > 0 || xPosition != Overwrite || old(uxMessagesWaiting) < uxLength
      ensures Valid() && pass && xPosition == SendToBack ==> Contents() == old(Contents()) + [item]
      ensures Valid() && pass && xPosition == SendToFront ==> Contents() == [item] + old(Contents())
      ensures Valid() && pass && xPosition == Overwrite ==> Contents() == [item]
      ensures Valid() && !pass ==> Contents() == old(Contents())
    {
      pass := uxMessagesWaiting < uxLength || xPosition == Overwrite;
      if pass {
        CopyDataToQueue(item, xPosition);
      }
    }

    /** The calls that the ring can be asked for. */
    predicate Possible(call: Op<Item>) {
      call.Enqueue? ==> |call.x| == uxItemSize && (call.position == Overwrite ==> uxLength == 1 && uxItemSize > 0)
    }

    /** Any run of sends to either end, overwrites, receives and peeks makes of the ring what it makes of a bounded
        sequence. No item is made up, and none lost but those overwritten; with sends to the back only, the items
        received, followed by those still in the ring, are those that were in it followed by those accepted. */
    method RunCalls(calls: seq<Op<Item>>) returns (accepted: seq<Item>, received: seq<Item>, ghost lost: seq<Item>)
      requires Valid() && forall c :: c in calls ==> Possible(c)
      modifies this, storage
      ensures Valid()
      ensures History(Contents(), old(Contents()) + accepted, received, lost)
           == Run(History(old(Contents()), old(Contents()), [], []), calls, uxLength)
      ensures multiset(old(Contents()) + accepted) == multiset(received) + multiset(Contents()) + multiset(lost)
      ensures (forall c :: c in calls && c.Enqueue? ==> c.position != Overwrite) ==> lost == []
      ensures (forall c :: c in calls && c.Enqueue? ==> c.position == SendToBack) ==>
        received + Contents() == old(Contents()) + accepted
    {
      ghost var was := Contents();
      ghost var first := History(was, was, [], []);
      accepted, received, lost := [], [], [];
      assert was + accepted == was;
      for i := 0 to |calls|
        invariant Valid() && History(Contents(), was + accepted, received, lost) == Run(first, calls[..i], uxLength)
      {
        RunOneMore(first, calls, i, uxLength);
        accepted, received, lost := RunCall(calls[i], was, accepted, received, lost);
      }
      assert calls[..|calls|] == calls;
      RunLaws(first, calls, uxLength);
    }

    ghost function Overwritten(position: Position): seq<Item>
      requires Valid()
      reads this, storage
    {
      if position == Overwrite then Contents()[..Least(|Contents()|, 1)] else []
    }

    method SendCall(x: Item, position: Position) returns (pass: bool)
      requires Valid() && Possible(Enqueue(x, position))
      modifies this, storage
      ensures Valid() && pass == Accepts(|old(Contents())|, uxLength, position)
      ensures Contents() == if pass then Send(old(Contents()), x, position) else old(Contents())
    {
      ghost var was := Contents();
      SendIs(was, x, position);
      pass := GenericSend(x, position);
    }

    method RunCall(call: Op<Item>, ghost was: seq<Item>, accepted: seq<Item>, received: seq<Item>,
        ghost lost: seq<Item>) returns (accepted': seq<Item>, received': seq<Item>, ghost lost': seq<Item>)
      requires Valid() && Possible(call)
      modifies this, storage
      ensures Valid()
      ensures History(Contents(), was + accepted', received', lost')
           == Step(History(old(Contents()), was + accepted, received, lost), call, uxLength)
    {
      accepted', received', lost' := accepted, received, lost;
      match call {
        case Enqueue(x, position) =>
          lost' := lost + Overwritten(position);
          var pass := SendCall(x, position);
          if pass { accepted' := accepted + [x]; } else { lost' := lost; }
          assert pass ==> was + accepted' == was + accepted + [x];
        case Dequeue =>
          var pass, item := Receive();
          if pass { received' := received + [item]; }
        case Look =>
          var _, _ := Peek();
      }
    }
  }
}
