/** Words of event bits as the 32-bit numbers they are: the value of a list item. */
module EventWord {
  import opened EventBits

  /** The positions from k on of the ones in n, whose first bit is at position k. */
  function Ones(n: nat, k: nat): Bits
    requires k <= 32
    decreases 32 - k
  {
    if k == 32 then {} else (if n % 2 == 1 then {k as Bit} else {}) + Ones(n / 2, k + 1)
  }

  function Number(bits: Bits, k: nat): nat
    requires k <= 32
    decreases 32 - k
  {
    if k == 32 then 0 else (if k as Bit in bits then 1 else 0) + 2 * Number(bits, k + 1)
  }

  function Word(n: nat): Bits { Ones(n, 0) }

  lemma {:induction false} OnesOfNumber(bits: Bits, k: nat)
    requires k <= 32
    ensures Ones(Number(bits, k), k) == set b | b in bits && b as int >= k
    ensures Number(bits, k) < Power2(32 - k)
    decreases 32 - k
  {
    if k < 32 { OnesOfNumber(bits, k + 1); }
  }

  function Power2(k: nat): nat {
    if k == 0 then 1 else 2 * Power2(k - 1)
  }

  /** Bit b is worth 2^b: with it the number is that much more. */
  lemma NumberOfBit(bits: Bits, b: Bit)
    requires b !in bits
    ensures Number(bits + {b}, 0) == Number(bits, 0) + Power2(b as nat) && Number({}, 0) == 0
  {
    NumberFrom(bits, b, 0);
    NoBits(0);
  }

  lemma {:induction false} NumberFrom(bits: Bits, b: Bit, k: nat)
    requires b !in bits && k <= 32
    ensures Number(bits + {b}, k) == Number(bits, k) + if k <= b as nat then Power2(b as nat - k) else 0
    decreases 32 - k
  {
    if k < 32 { NumberFrom(bits, b, k + 1); }
  }

  lemma {:induction false} NoBits(k: nat)
    requires k <= 32
    ensures Number({}, k) == 0
    decreases 32 - k
  {
    if k < 32 { NoBits(k + 1); }
  }

  /** Every word is the word of a 32-bit number. */
  lemma WordOfNumber(bits: Bits)
    ensures Word(Number(bits, 0)) == bits && Number(bits, 0) < 0x1_0000_0000
  {
    OnesOfNumber(bits, 0);
    assert (set b | b in bits && b as int >= 0) == bits;
    EightMore(0);
    EightMore(8);
    EightMore(16);
    EightMore(24);
  }

  lemma EightMore(k: nat)
    ensures Power2(k + 8) == 0x100 * Power2(k)
  {
    assert Power2(k + 2) == 4 * Power2(k);
    assert Power2(k + 4) == 4 * Power2(k + 2);
    assert Power2(k + 6) == 4 * Power2(k + 4);
  }
}

/** The pass of xEventGroupSetBits over the linked list itself. */
module EventGroupList {
  import opened ListView
  import opened KernelList
  import opened EventBits
  import opened EventWord
  import EventGroupObject

  ghost function WaiterOf(x: ListItem): Waiter
    reads x`xItemValue
  {
    Waiter(x.pvOwner, Word(x.xItemValue))
  }

  ghost function Waiters(items: seq<ListItem>): (r: seq<Waiter>)
    reads items`xItemValue
    ensures |r| == |items| && forall i :: 0 <= i < |r| ==> r[i] == WaiterOf(items[i])
  {
    if items == [] then [] else Waiters(items[..|items| - 1]) + [WaiterOf(items[|items| - 1])]
  }

  /** Of items that were these waiters, those that bits do not satisfy. */
  function Staying<T>(items: seq<T>, waiters: seq<Waiter>, bits: Bits): (r: seq<T>)
    requires |items| == |waiters|
    ensures |r| == |Kept(waiters, bits)|
  {
    if items == [] then []
    else
      var n := |items| - 1;
      var before := Staying(items[..n], waiters[..n], bits);
      if Satisfied(waiters[n], bits) then before else before + [items[n]]
  }

  /** One turn of the loop: the next item is fetched before the current one may leave the list. */
  method LookAt(list: List, pxListItem: ListItem, bits: Bits, toClear: Bits, ghost j: nat)
      returns (pxNext: ListItem, clears: Bits)
    requires list.Valid() && j < |list.items| && pxListItem == list.items[j]
    modifies list, list.Ring()`pxNext, list.Ring()`pxPrevious, pxListItem`pvContainer, pxListItem`xItemValue
    ensures list.Valid()
    ensures pxNext == old(List.After(list.Ring(), j + 1))
    ensures clears == toClear +
      if Clears(old(WaiterOf(pxListItem)), bits) then Events(old(WaiterOf(pxListItem)).value) else {}
    ensures if Satisfied(old(WaiterOf(pxListItem)), bits) then
        list.items == Without(old(list.items), j) && pxListItem.pvContainer == null
          && Word(pxListItem.xItemValue) == Delivery(bits)
      else
        list.items == old(list.items) && pxListItem.pvContainer == list
          && pxListItem.xItemValue == old(pxListItem.xItemValue)
  {
    assert List.Joint(list.Ring(), j + 1);
    pxNext := pxListItem.pxNext;
    clears := toClear;
    var uxBitsWaitedFor := Word(pxListItem.xItemValue);
    if Satisfied(Waiter(pxListItem.pvOwner, uxBitsWaitedFor), bits) {
      if CLEAR_EVENTS_ON_EXIT in uxBitsWaitedFor { clears := clears + Events(uxBitsWaitedFor); }
      RemoveFromUnorderedEventList(list, pxListItem, bits + {UNBLOCKED_DUE_TO_BIT_SET}, j);
      assert bits + {UNBLOCKED_DUE_TO_BIT_SET} + {IN_USE} == Delivery(bits);
    }
  }

  /** vTaskRemoveFromUnorderedEventList: the value is written, then the item removed. */
  method RemoveFromUnorderedEventList(list: List, x: ListItem, value: Bits, ghost j: nat)
    requires list.Valid() && j < |list.items| && x == list.items[j]
    modifies list, list.Ring()`pxNext, list.Ring()`pxPrevious, x`pvContainer, x`xItemValue
    ensures list.Valid() && list.items == Without(old(list.items), j)
    ensures x.pvContainer == null && Word(x.xItemValue) == value + {IN_USE}
  {
    WordOfNumber(value + {IN_USE});
    assert list.xListEnd != x by { assert List.Differ(list.Ring(), 0, j + 1); }
    x.xItemValue := Number(value + {IN_USE}, 0);
    var _ := list.RemoveAt(x, j);
  }

  /** The pass has looked at the first n items of the list as it was, was, with these waiters. */
  ghost predicate Passed(list: List, was: seq<ListItem>, waiters: seq<Waiter>, bits: Bits, n: nat)
    requires |was| == |waiters|
    reads list, was`xItemValue, was`pvContainer
  {
    && n <= |was| && list.items == Staying(was[..n], waiters[..n], bits) + was[n..]
    && forall i :: 0 <= i < |was| ==> Marked(list, was, waiters, bits, n, i)
  }

  ghost predicate Marked(list: List, was: seq<ListItem>, waiters: seq<Waiter>, bits: Bits, n: nat, i: nat)
    requires i < |was| == |waiters|
    reads was`xItemValue, was`pvContainer
  {
    if i < n then Treated(list, was[i], waiters[i], bits)
    else WaiterOf(was[i]) == waiters[i] && was[i].pvContainer == list
  }

  /** A satisfied waiter is off the list, its item handed the bits; any other is as it was. */
  ghost predicate Treated(list: List, x: ListItem, w: Waiter, bits: Bits)
    reads x`xItemValue, x`pvContainer
  {
    if Satisfied(w, bits) then x.pvContainer == null && Word(x.xItemValue) == Delivery(bits)
    else x.pvContainer == list && WaiterOf(x) == w
  }

  ghost predicate NoTwice<T>(items: seq<T>) {
    forall i, j :: 0 <= i < j < |items| ==> items[i] != items[j]
  }

  lemma {:induction false} StayingIn<T>(items: seq<T>, waiters: seq<Waiter>, bits: Bits, x: T)
    requires |items| == |waiters|
    ensures x in Staying(items, waiters, bits) ==> x in items
  {
    if items != [] {
      var n := |items| - 1;
      StayingIn(items[..n], waiters[..n], bits, x);
    }
  }

  /** What the list becomes as item n stays, or leaves from its place. */
  lemma StayingStep<T>(was: seq<T>, waiters: seq<Waiter>, bits: Bits, n: nat, list: seq<T>)
    requires |was| == |waiters| && n < |was| && list == Staying(was[..n], waiters[..n], bits) + was[n..]
    ensures var j := |Kept(waiters[..n], bits)|;
      && j < |list| && list[j] == was[n]
      && (j + 1 < |list| <==> n + 1 < |was|) && (j + 1 < |list| ==> list[j + 1] == was[n + 1])
      && Staying(was[..n + 1], waiters[..n + 1], bits) + was[n + 1..] ==
           if Satisfied(waiters[n], bits) then Without(list, j) else list
  {
    assert was[..n + 1][..n] == was[..n] && waiters[..n + 1][..n] == waiters[..n];
    CutAt(Staying(was[..n], waiters[..n], bits), was, n, list);
  }

  lemma CutAt<T>(before: seq<T>, was: seq<T>, n: nat, list: seq<T>)
    requires n < |was| && list == before + was[n..]
    ensures |list| == |before| + |was| - n && list[|before|] == was[n]
    ensures n + 1 < |was| ==> list[|before| + 1] == was[n + 1]
    ensures Without(list, |before|) == before + was[n + 1..] && list == before + [was[n]] + was[n + 1..]
  {
  }

  ghost predicate Inside(list: List, nodes: set<ListItem>)
    reads list
  {
    forall x :: x in list.Ring() ==> x in nodes
  }

  /** One turn of the loop. */
  method Turn(list: List, pxListItem: ListItem, bits: Bits, toClear: Bits,
              ghost was: seq<ListItem>, ghost waiters: seq<Waiter>, ghost n: nat, ghost nodes: set<ListItem>)
      returns (pxNext: ListItem, clears: Bits)
    requires list.Valid() && NoTwice(was) && |was| == |waiters| && n < |was| && pxListItem == was[n]
    requires list.xListEnd !in was
    requires Passed(list, was, waiters, bits, n) && toClear == ClearMask(waiters[..n], bits)
    requires Inside(list, nodes)
    modifies list, nodes
    ensures Inside(list, nodes)
    ensures list.Valid() && Passed(list, was, waiters, bits, n + 1) && clears == ClearMask(waiters[..n + 1], bits)
    ensures pxNext == if n + 1 < |was| then was[n + 1] else list.xListEnd
    ensures pxNext == list.xListEnd <==> n + 1 == |was|
  {
    assert Marked(list, was, waiters, bits, n, n);
    StayingStep(was, waiters, bits, n, list.items);
    EventGroupObject.OneMore(waiters, n, bits);
    pxNext, clears := LookAt(list, pxListItem, bits, toClear, |Kept(waiters[..n], bits)|);
    ghost var m := n + 1;
    assert Marked(list, was, waiters, bits, m, n);
    forall i | 0 <= i < |was| && i != n ensures Marked(list, was, waiters, bits, m, i) {
      assert was[i] != was[n] && old(Marked(list, was, waiters, bits, n, i));
      assert was[i].xItemValue == old(was[i].xItemValue) && was[i].pvContainer == old(was[i].pvContainer);
      assert Marked(list, was, waiters, bits, n, i);
    }
  }

  lemma {:induction false} StayingWaiters(was: seq<ListItem>, waiters: seq<Waiter>, bits: Bits)
    requires |was| == |waiters|
    requires forall i :: 0 <= i < |was| && !Satisfied(waiters[i], bits) ==> WaiterOf(was[i]) == waiters[i]
    ensures Waiters(Staying(was, waiters, bits)) == Kept(waiters, bits)
  {
    if was != [] {
      var n := |was| - 1;
      StayingWaiters(was[..n], waiters[..n], bits);
      var before := Staying(was[..n], waiters[..n], bits);
      assert (before + [was[n]])[..|before|] == before;
    }
  }

  lemma ItemsApart(list: List)
    requires list.Valid()
    ensures NoTwice(list.items) && list.xListEnd !in list.items
  {
    forall i, j | 0 <= i < j < |list.items| ensures list.items[i] != list.items[j] {
      assert List.Differ(list.Ring(), i + 1, j + 1);
    }
    forall i | 0 <= i < |list.items| ensures list.items[i] != list.xListEnd {
      assert List.Differ(list.Ring(), 0, i + 1);
    }
  }

  /** The loop of xEventGroupSetBits, on a linked list of which items leave while it is walked: the items that stay, in
      order, are those the new bits do not satisfy; every other has been handed the bits; and the mask to clear is that
      of the items gone. */
  method WakeWaiters(list: List, bits: Bits) returns (toClear: Bits)
    requires list.Valid()
    modifies list, list.Ring()
    ensures list.Valid() && Waiters(list.items) == Kept(old(Waiters(list.items)), bits)
    ensures toClear == ClearMask(old(Waiters(list.items)), bits)
    ensures list.items == Staying(old(list.items), old(Waiters(list.items)), bits)
    ensures forall i :: 0 <= i < |old(list.items)| ==>
      Treated(list, old(list.items)[i], old(Waiters(list.items))[i], bits)
  {
    ghost var was, waiters := list.items, Waiters(list.items);
    ItemsApart(list);
    toClear := Walk(list, bits, was, waiters, set x | x in list.Ring());
    PassedAll(list, was, waiters, bits);
  }

  method Walk(list: List, bits: Bits, ghost was: seq<ListItem>, ghost waiters: seq<Waiter>, ghost nodes: set<ListItem>)
      returns (toClear: Bits)
    requires list.Valid() && was == list.items && waiters == Waiters(was) && Inside(list, nodes)
    requires NoTwice(was) && list.xListEnd !in was
    modifies list, nodes
    ensures list.Valid() && Passed(list, was, waiters, bits, |was|) && toClear == ClearMask(waiters, bits)
  {
    assert List.Joint(list.Ring(), 0);
    forall i | 0 <= i < |was| ensures Marked(list, was, waiters, bits, 0, i) { assert was[i].pvContainer == list; }
    toClear := {};
    ghost var n: nat := 0;
    var pxListItem := list.xListEnd.pxNext;
    while pxListItem != list.xListEnd
      invariant list.Valid() && Passed(list, was, waiters, bits, n) && toClear == ClearMask(waiters[..n], bits)
      invariant pxListItem == (if n < |was| then was[n] else list.xListEnd) && Inside(list, nodes)
      invariant pxListItem == list.xListEnd <==> n == |was|
      decreases |was| - n
    {
      pxListItem, toClear := Turn(list, pxListItem, bits, toClear, was, waiters, n, nodes);
      n := n + 1;
    }
    assert n == |was|;
    Whole(waiters);
  }

  lemma Whole<T>(s: seq<T>)
    ensures s[..|s|] == s
  {
  }

  lemma PassedAll(list: List, was: seq<ListItem>, waiters: seq<Waiter>, bits: Bits)
    requires |was| == |waiters| && Passed(list, was, waiters, bits, |was|)
    ensures list.items == Staying(was, waiters, bits) && Waiters(list.items) == Kept(waiters, bits)
    ensures forall i :: 0 <= i < |was| ==> Treated(list, was[i], waiters[i], bits)
  {
    Whole(was);
    Whole(waiters);
    forall i | 0 <= i < |was| && !Satisfied(waiters[i], bits) ensures WaiterOf(was[i]) == waiters[i] {
      assert Marked(list, was, waiters, bits, |was|, i);
    }
    StayingWaiters(was, waiters, bits);
    forall i | 0 <= i < |was| ensures Treated(list, was[i], waiters[i], bits) {
      assert Marked(list, was, waiters, bits, |was|, i);
    }
  }

  /** xEventGroupSetBits with the scheduler suspended, on the bits and the linked list of the group: bits and list
      afterwards are those of the one-shot outcome. */
  method SetBits(list: List, uxEventBits: Bits, toSet: Bits) returns (bits: Bits)
    requires list.Valid()
    modifies list, list.Ring()
    ensures list.Valid()
    ensures var g' := EventBits.SetBits(Group(uxEventBits, old(Waiters(list.items)), map[]), toSet);
      bits == g'.bits && Waiters(list.items) == g'.waiting
    ensures forall i :: 0 <= i < |old(list.items)| ==>
      Treated(list, old(list.items)[i], old(Waiters(list.items))[i], uxEventBits + toSet)
  {
    bits := uxEventBits + toSet;
    var toClear := WakeWaiters(list, bits);
    bits := bits - toClear;
  }
}
