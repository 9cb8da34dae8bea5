/** The abstract value of a kernel list: the items in link order, and where the walking index stands.
  Position 0 is the end marker; position p > 0 is items[p - 1]. */
module ListView {

  /** The items in the order in which listGET_OWNER_OF_NEXT_ENTRY is going to return them. */
  function Upcoming<T>(items: seq<T>, pos: nat): seq<T>
    requires pos <= |items|
  {
    items[pos..] + items[..pos]
  }

  /** Where the index goes next: past the end marker, to the first item. */
  function Advance(n: nat, pos: nat): (p: nat)
    requires pos <= n
  {
    if pos == n then 1 else pos + 1
  }

  /** n steps of the walk: the items returned. */
  function Visits<T>(items: seq<T>, pos: nat, n: nat): (r: seq<T>)
    requires items != [] && pos <= |items|
    decreases n
  {
    if n == 0 then [] else [items[Advance(|items|, pos) - 1]] + Visits(items, Advance(|items|, pos), n - 1)
  }

  /** One step returns the head of the upcoming order and sends it to the back. */
  lemma AdvanceRotates<T>(items: seq<T>, pos: nat)
    requires items != [] && pos <= |items|
    ensures var up := Upcoming(items, pos); var p := Advance(|items|, pos);
      items[p - 1] == up[0] && Upcoming(items, p) == up[1..] + [up[0]]
  {
    var up, p := Upcoming(items, pos), Advance(|items|, pos);
    if pos < |items| {
      assert up[1..] + [up[0]] == Upcoming(items, p);
    } else {
      assert up == items;
      assert items == [items[0]] + items[1..];
    }
  }

  /** Any number of steps up to a full turn returns the upcoming items in order. */
  lemma {:induction false} VisitsFollowUpcoming<T>(items: seq<T>, pos: nat, n: nat)
    requires items != [] && pos <= |items| && n <= |items|
    ensures Visits(items, pos, n) == Upcoming(items, pos)[..n]
    decreases n
  {
    if n > 0 {
      var up, p := Upcoming(items, pos), Advance(|items|, pos);
      AdvanceRotates(items, pos);
      VisitsFollowUpcoming(items, p, n - 1);
      assert up[..n] == [up[0]] + (up[1..] + [up[0]])[..n - 1];
    }
  }

  /** A full turn visits every item exactly once. */
  lemma FullTurnVisitsEachOnce<T>(items: seq<T>, pos: nat)
    requires items != [] && pos <= |items|
    ensures multiset(Visits(items, pos, |items|)) == multiset(items)
  {
    VisitsFollowUpcoming(items, pos, |items|);
    var up := Upcoming(items, pos);
    assert up[..|items|] == up;
    assert items == items[..pos] + items[pos..];
  }

  // ----- vListInsertEnd -----

  function InsertEnd<T>(items: seq<T>, pos: nat, x: T): seq<T>
    requires pos <= |items|
  {
    Inserted(items, EndPlace(|items|, pos), x)
  }

  /** vListInsertEnd links the new item in just before the one the index designates. */
  function EndPlace(n: nat, pos: nat): (k: nat)
    requires pos <= n
    ensures k <= n
  {
    if pos == 0 then n else pos - 1
  }

  function InsertEndPos(pos: nat): nat { if pos == 0 then 0 else pos + 1 }

  /** The new item comes after every other item except the one the index designates at the moment. */
  lemma InsertEndOrder<T>(items: seq<T>, pos: nat, x: T)
    requires pos <= |items|
    ensures InsertEndPos(pos) <= |items| + 1
    ensures var up := Upcoming(items, pos); var up' := Upcoming(InsertEnd(items, pos, x), InsertEndPos(pos));
      up' == if pos == 0 then up + [x] else up[..|up| - 1] + [x] + [up[|up| - 1]]
  {
    var up, new_ := Upcoming(items, pos), InsertEnd(items, pos, x);
    if pos > 0 {
      assert new_[pos + 1..] == items[pos..];
      assert new_[..pos + 1] == items[..pos - 1] + [x] + [items[pos - 1]];
      assert up[..|up| - 1] == items[pos..] + items[..pos - 1];
    }
  }

  /** "Last to be returned", as list.h describes it, holds exactly when the index is on the end marker:
      otherwise the designated item, a different one, comes later still. */
  lemma InsertEndIsLastIff<T>(items: seq<T>, pos: nat, x: T)
    requires pos <= |items| && x !in items
    ensures InsertEndPos(pos) <= |items| + 1
    ensures var up' := Upcoming(InsertEnd(items, pos, x), InsertEndPos(pos));
      up'[|items|] == x <==> pos == 0
  {
    InsertEndOrder(items, pos, x);
    if pos > 0 { assert Upcoming(items, pos)[|items| - 1] == items[pos - 1]; }
  }

  // ----- uxListRemove -----

  function Without<T>(s: seq<T>, j: nat): seq<T>
    requires j < |s|
  {
    s[..j] + s[j + 1..]
  }

  function RemovePos(pos: nat, j: nat): nat { if pos > j then pos - 1 else pos }

  /** Removing an item takes just that item out of the upcoming order, even when the index designates it. */
  lemma RemoveKeepsOrder<T>(items: seq<T>, pos: nat, j: nat)
    requires pos <= |items| && j < |items|
    ensures RemovePos(pos, j) <= |items| - 1
    ensures var k := if j >= pos then j - pos else |items| - pos + j;
      Upcoming(items, pos)[k] == items[j]
        && Upcoming(Without(items, j), RemovePos(pos, j)) == Without(Upcoming(items, pos), k)
  {
    var k := if j >= pos then j - pos else |items| - pos + j;
    var up, left := Upcoming(items, pos), Without(items, j);
    if j >= pos {
      assert Without(up, k) == items[pos..j] + items[j + 1..] + items[..pos];
      assert left[pos..] == items[pos..j] + items[j + 1..] && left[..pos] == items[..pos];
    } else {
      assert Without(up, k) == items[pos..] + items[..j] + items[j + 1..pos];
      assert left[pos - 1..] == items[pos..] && left[..pos - 1] == items[..j] + items[j + 1..pos];
    }
  }

  // ----- vListInsert -----

  /** The first position whose value exceeds v. */
  function SortedPlace(values: seq<nat>, v: nat): (k: nat)
    ensures k <= |values|
    ensures forall i :: 0 <= i < k ==> values[i] <= v
    ensures k < |values| ==> values[k] > v
  {
    if values == [] || values[0] > v then 0 else 1 + SortedPlace(values[1..], v)
  }

  ghost predicate Ascending(values: seq<nat>) {
    forall i, j :: 0 <= i < j < |values| ==> values[i] <= values[j]
  }

  function Inserted<T>(s: seq<T>, k: nat, x: T): seq<T>
    requires k <= |s|
  {
    s[..k] + [x] + s[k..]
  }

  /** On an ascending list vListInsert keeps the order, and the new item goes behind every item of the same
      value: equal values are served first come, first served. */
  lemma SortedInsertIsStable(values: seq<nat>, v: nat)
    requires Ascending(values)
    ensures Ascending(Inserted(values, SortedPlace(values, v), v))
    ensures forall i :: 0 <= i < |values| ==> (values[i] <= v <==> i < SortedPlace(values, v))
  {
    var k := SortedPlace(values, v);
    var s := Inserted(values, k, v);
    forall i | k <= i < |values| ensures values[i] > v {
      if i > k { assert values[k] <= values[i]; }
    }
    forall i, j | 0 <= i < j < |s| ensures s[i] <= s[j] {
      assert s[i] == if i < k then values[i] else if i == k then v else values[i - 1];
      assert s[j] == if j < k then values[j] else if j == k then v else values[j - 1];
    }
  }

  /** Taking one value out leaves the others in order. */
  lemma WithoutAscends(values: seq<nat>, j: nat)
    requires Ascending(values) && j < |values|
    ensures Ascending(Without(values, j))
  {
    var s := Without(values, j);
    assert forall i :: 0 <= i < |s| ==> s[i] == values[if i < j then i else i + 1];
  }

  lemma InsertedBehind<T>(first: T, rest: seq<T>, k: nat, x: T)
    requires k <= |rest|
    ensures Inserted([first] + rest, k + 1, x) == [first] + Inserted(rest, k, x)
  {
    assert ([first] + rest)[..k + 1] == [first] + rest[..k];
    assert ([first] + rest)[k + 1..] == rest[k..];
  }

  lemma WithoutBehind<T>(first: T, rest: seq<T>, j: nat)
    requires j < |rest|
    ensures Without([first] + rest, j + 1) == [first] + Without(rest, j)
  {
    assert ([first] + rest)[..j + 1] == [first] + rest[..j];
    assert ([first] + rest)[j + 2..] == rest[j + 1..];
  }

  /** r is s without its j-th item. */
  ghost predicate TakenOut<T>(s: seq<T>, r: seq<T>, j: nat) {
    && j < |s| && |r| == |s| - 1
    && (forall i :: 0 <= i < j ==> r[i] == s[i]) && forall i :: j <= i < |r| ==> r[i] == s[i + 1]
  }

  lemma WithoutFrom<T>(s: seq<T>, r: seq<T>, j: nat)
    requires TakenOut(s, r, j)
    ensures r == Without(s, j)
  {
    assert r[..j] == s[..j] && r[j..] == s[j + 1..];
  }

  lemma WithoutIs<T>(s: seq<T>, r: seq<T>, j: nat)
    requires j < |s| && r == Without(s, j)
    ensures TakenOut(s, r, j)
  {
  }

  lemma OnlyThere<T>(s: seq<T>, j: nat)
    requires j < |s| && s[j] !in Without(s, j)
    ensures forall i :: 0 <= i < |s| && i != j ==> s[i] != s[j]
  {
    forall i | 0 <= i < |s| && i != j ensures s[i] != s[j] { assert s[i] == Without(s, j)[if i < j then i else i - 1]; }
  }

  /** r is s with x put in at k. */
  ghost predicate PutIn<T>(s: seq<T>, r: seq<T>, k: nat, x: T) {
    && k <= |s| && |r| == |s| + 1 && r[k] == x
    && (forall i :: 0 <= i < k ==> r[i] == s[i]) && forall i :: k <= i < |s| ==> s[i] == r[i + 1]
  }

  lemma InsertedFrom<T>(s: seq<T>, r: seq<T>, k: nat, x: T)
    requires PutIn(s, r, k, x)
    ensures r == Inserted(s, k, x)
  {
    assert r[..k] == s[..k] && r[k + 1..] == s[k..];
  }

  lemma InsertedIs<T>(s: seq<T>, r: seq<T>, k: nat, x: T)
    requires k <= |s| && r == Inserted(s, k, x)
    ensures PutIn(s, r, k, x)
  {
  }
}

/** list.c and the walking macro of list.h: the circular doubly linked list of the kernel. */
module KernelList {
  import opened ListView

  /** portMAX_DELAY for a 32-bit TickType_t. */
  const MAX_DELAY := 0xFFFF_FFFF
  const MAX_PRIORITIES := 8
  const IDLE_PRIORITY := 0

  class ListItem {
    var xItemValue: nat
    var pxNext: ListItem?
    var pxPrevious: ListItem?
    var pvContainer: List?
    /** The task, by number, that the item belongs to. */
    const pvOwner: nat

    /** vListInitialiseItem, listSET_LIST_ITEM_OWNER and listSET_LIST_ITEM_VALUE */
    constructor (xItemValue: nat, pvOwner: nat)
      ensures this.xItemValue == xItemValue && this.pvOwner == pvOwner && pvContainer == null
    {
      this.xItemValue, this.pvOwner := xItemValue, pvOwner;
      pxNext, pxPrevious, pvContainer := null, null, null;
    }
  }

  class List {
    var uxNumberOfItems: nat
    var pxIndex: ListItem
    const xListEnd: ListItem
    ghost var items: seq<ListItem>
    /** Position of pxIndex on the ring. */
    ghost var pos: nat

    /** Every node of the circle, the end marker first. */
    ghost function Ring(): (r: seq<ListItem>)
      reads this
      ensures |r| == |items| + 1
    {
      [xListEnd] + items
    }

    static ghost predicate Linked(a: ListItem, b: ListItem)
      reads a`pxNext, b`pxPrevious
    {
      a.pxNext == b && b.pxPrevious == a
    }

    static ghost function After(r: seq<ListItem>, k: nat): ListItem
      requires k < |r|
    {
      if k + 1 < |r| then r[k + 1] else r[0]
    }

    /** Neighbours on the ring point at each other, and the last node closes the circle. */
    static ghost predicate Circle(r: seq<ListItem>)
      reads r`pxNext, r`pxPrevious
    {
      && (forall i, j :: 0 <= i < j < |r| ==> Differ(r, i, j))
      && forall i :: 0 <= i < |r| ==> Joint(r, i)
    }

    static ghost predicate Differ(r: seq<ListItem>, i: nat, j: nat)
      requires i < |r| && j < |r|
    {
      r[i] != r[j]
    }

    static ghost predicate Joint(r: seq<ListItem>, i: nat)
      requires i < |r|
      reads r`pxNext, r`pxPrevious
    {
      Linked(r[i], After(r, i))
    }

    ghost predicate Valid()
      reads this, xListEnd, items
    {
      Circle(Ring()) && Registered()
    }

    /** Everything but the links. */
    ghost predicate Registered()
      reads this, xListEnd`xItemValue, items`pvContainer, items`xItemValue
    {
      && pos <= |items| && pxIndex == Ring()[pos]
      && uxNumberOfItems == |items|
      && xListEnd.xItemValue == MAX_DELAY
      && forall i :: 0 <= i < |items| ==> items[i].pvContainer == this && items[i].xItemValue <= MAX_DELAY
    }

    ghost function Values(): (r: seq<nat>)
      reads this`items, items`xItemValue
      ensures |r| == |items| && forall i :: 0 <= i < |r| ==> r[i] == items[i].xItemValue
    {
      ValuesOf(items)
    }

    static ghost function ValuesOf(s: seq<ListItem>): (r: seq<nat>)
      reads s`xItemValue
      ensures |r| == |s| && forall i :: 0 <= i < |r| ==> r[i] == s[i].xItemValue
    {
      if s == [] then [] else [s[0].xItemValue] + ValuesOf(s[1..])
    }

    /** vListInitialise */
    constructor ()
      ensures Valid() && items == [] && pos == 0 && fresh(xListEnd)
    {
      var end := new ListItem(MAX_DELAY, 0);
      xListEnd, pxIndex := end, end;
      uxNumberOfItems := 0;
      items, pos := [], 0;
      new;
      xListEnd.pxNext := xListEnd;
      xListEnd.pxPrevious := xListEnd;
    }

    /** Every node of ring but the one whose pxNext, and the one whose pxPrevious, was rewritten. */
    static twostate predicate OnlyRelinked(ring: seq<ListItem>, new a: ListItem, new b: ListItem)
      reads ring`pxNext, ring`pxPrevious
    {
      forall n :: n in ring ==> (n != a ==> n.pxNext == old(n.pxNext)) && (n != b ==> n.pxPrevious == old(n.pxPrevious))
    }

    /** The four link writes that put node k + 1 of r behind node k close the circle again. */
    static twostate lemma SpliceKeepsCircle(ring: seq<ListItem>, new k: nat, new x: ListItem)
      requires k < |ring| && old(Circle(ring)) && x !in ring
      requires Linked(ring[k], x) && Linked(x, After(ring, k))
      requires OnlyRelinked(ring, ring[k], After(ring, k))
      ensures Circle(Inserted(ring, k + 1, x))
    {
      var r := Inserted(ring, k + 1, x);
      forall i | 0 <= i < |r| ensures Joint(r, i) {
        if i < k || i > k + 1 {
          var j := if i < k then i else i - 1;
          assert old(Joint(ring, j));
          assert r[i] == ring[j];
          assert if j < k then Differ(ring, j, k) else Differ(ring, k, j);
          var after, e := if k + 1 < |ring| then k + 1 else 0, if j + 1 < |ring| then j + 1 else 0;
          assert if e < after then Differ(ring, e, after) else Differ(ring, after, e);
        }
      }
      forall i, j | 0 <= i < j < |r| ensures Differ(r, i, j) {
        var a, b := if i <= k then i else i - 1, if j <= k then j else j - 1;
        assert a < b ==> Differ(ring, a, b);
      }
    }

    /** The link writes of vListInsertEnd: put x in front of the node index. */
    static method LinkBefore(index: ListItem, x: ListItem)
      requires index.pxPrevious != null && x != index && x != index.pxPrevious
      modifies index`pxPrevious, index.pxPrevious`pxNext, x`pxNext, x`pxPrevious
      ensures Linked(old(index.pxPrevious), x) && Linked(x, index)
    {
      x.pxNext := index;
      x.pxPrevious := index.pxPrevious;
      index.pxPrevious.pxNext := x;
      index.pxPrevious := x;
    }

    /** The link writes of vListInsert: put x behind the node pxIterator. */
    static method LinkBehind(pxIterator: ListItem, x: ListItem)
      requires pxIterator.pxNext != null && x != pxIterator && x != pxIterator.pxNext
      modifies pxIterator`pxNext, pxIterator.pxNext`pxPrevious, x`pxNext, x`pxPrevious
      ensures Linked(pxIterator, x) && Linked(x, old(pxIterator.pxNext))
    {
      x.pxNext := pxIterator.pxNext;
      x.pxNext.pxPrevious := x;
      x.pxPrevious := pxIterator;
      pxIterator.pxNext := x;
    }

    /** Record an item that has just been linked in behind node k of the ring. */
    method Adopt(x: ListItem, ghost k: nat)
      requires Registered() && k <= |items| && Circle(Inserted(Ring(), k + 1, x)) && x.xItemValue <= MAX_DELAY
      modifies this, x`pvContainer
      ensures Valid() && items == Inserted(old(items), k, x) && pos == if old(pos) > k then old(pos) + 1 else old(pos)
    {
      ghost var was := items;
      InsertedIs(items, Inserted(items, k, x), k, x);
      x.pvContainer := this;
      uxNumberOfItems := uxNumberOfItems + 1;
      items, pos := Inserted(items, k, x), if pos > k then pos + 1 else pos;
      InsertedBehind(xListEnd, was, k, x);
      AlsoRegistered(was, k, x);
    }

    /** The other items stay registered, and x is too. */
    lemma AlsoRegistered(was: seq<ListItem>, k: nat, x: ListItem)
      requires PutIn(was, items, k, x) && x.pvContainer == this && x.xItemValue <= MAX_DELAY
      requires forall i :: 0 <= i < |was| ==> was[i].pvContainer == this && was[i].xItemValue <= MAX_DELAY
      ensures forall i :: 0 <= i < |items| ==> items[i].pvContainer == this && items[i].xItemValue <= MAX_DELAY
    {
      forall i | 0 <= i < |items| ensures items[i].pvContainer == this && items[i].xItemValue <= MAX_DELAY {
        assert items[i] == if i < k then was[i] else if i == k then x else was[i - 1];
      }
    }

    /** vListInsertEnd */
    method InsertEnd(pxNewListItem: ListItem)
      requires Valid() && pxNewListItem !in Ring() && pxNewListItem.xItemValue <= MAX_DELAY
      modifies this, Ring()`pxNext, Ring()`pxPrevious, pxNewListItem`pxNext, pxNewListItem`pxPrevious,
        pxNewListItem`pvContainer
      ensures Valid()
      ensures items == ListView.InsertEnd(old(items), old(pos), pxNewListItem) && pos == InsertEndPos(old(pos))
    {
      ghost var ring, k := Ring(), EndPlace(|items|, pos);
      assert Joint(ring, k) && After(ring, k) == pxIndex;
      LinkBefore(pxIndex, pxNewListItem);
      SpliceKeepsCircle(ring, k, pxNewListItem);
      Adopt(pxNewListItem, k);
    }

    /** vListInsert. A list in order stays in order. */
    method Insert(pxNewListItem: ListItem)
      requires Valid() && pxNewListItem !in Ring() && pxNewListItem.xItemValue <= MAX_DELAY
      modifies this, Ring()`pxNext, Ring()`pxPrevious, pxNewListItem`pxNext, pxNewListItem`pxPrevious,
        pxNewListItem`pvContainer
      ensures Valid()
      ensures var k := SortedPlace(old(Values()), old(pxNewListItem.xItemValue));
        && items == Inserted(old(items), k, pxNewListItem)
        && pos == if old(pos) > k then old(pos) + 1 else old(pos)
      ensures old(Ascending(Values())) ==> Ascending(Values())
    {
      ghost var was, values, k := items, Values(), SortedPlace(Values(), pxNewListItem.xItemValue);
      FindAndLink(pxNewListItem, k);
      SameValues(was);
      ValuesInserted(was, k, pxNewListItem);
      if Ascending(values) { SortedInsertIsStable(values, pxNewListItem.xItemValue); }
    }

    /** The search, and then the links. */
    method FindAndLink(pxNewListItem: ListItem, ghost k: nat)
      requires Valid() && pxNewListItem !in Ring() && pxNewListItem.xItemValue <= MAX_DELAY
      requires k == SortedPlace(Values(), pxNewListItem.xItemValue)
      modifies this, Ring()`pxNext, Ring()`pxPrevious, pxNewListItem`pxNext, pxNewListItem`pxPrevious,
        pxNewListItem`pvContainer
      ensures Valid()
      ensures items == Inserted(old(items), k, pxNewListItem) && pos == if old(pos) > k then old(pos) + 1 else old(pos)
    {
      var pxIterator := FindPlace(pxNewListItem.xItemValue);
      LinkIn(pxIterator, pxNewListItem, k);
    }

    /** The links and the rest, behind node k of the ring. */
    method LinkIn(pxIterator: ListItem, pxNewListItem: ListItem, ghost k: nat)
      requires Valid() && pxNewListItem !in Ring() && pxNewListItem.xItemValue <= MAX_DELAY
      requires k <= |items| && pxIterator == Ring()[k]
      modifies this, Ring()`pxNext, Ring()`pxPrevious, pxNewListItem`pxNext, pxNewListItem`pxPrevious,
        pxNewListItem`pvContainer
      ensures Valid()
      ensures items == Inserted(old(items), k, pxNewListItem) && pos == if old(pos) > k then old(pos) + 1 else old(pos)
    {
      SpliceBehind(pxIterator, pxNewListItem, Ring(), k);
      Adopt(pxNewListItem, k);
    }

    /** The link writes, and the circle they make. */
    static method SpliceBehind(pxIterator: ListItem, x: ListItem, ghost ring: seq<ListItem>, ghost k: nat)
      requires Circle(ring) && k < |ring| && pxIterator == ring[k] && x !in ring
      modifies ring`pxNext, ring`pxPrevious, x`pxNext, x`pxPrevious
      ensures Circle(Inserted(ring, k + 1, x))
    {
      assert Joint(ring, k);
      LinkBehind(pxIterator, x);
      SpliceKeepsCircle(ring, k, x);
    }

    /** Relinking changes no values. */
    static twostate lemma SameValues(s: seq<ListItem>)
      requires forall x :: x in s ==> x.xItemValue == old(x.xItemValue)
      ensures ValuesOf(s) == old(ValuesOf(s))
    {
    }

    static lemma ValuesInserted(s: seq<ListItem>, k: nat, x: ListItem)
      requires k <= |s|
      ensures ValuesOf(Inserted(s, k, x)) == Inserted(ValuesOf(s), k, x.xItemValue)
    {
      InsertedIs(s, Inserted(s, k, x), k, x);
      InsertedFrom(ValuesOf(s), ValuesOf(Inserted(s, k, x)), k, x.xItemValue);
    }

    static lemma ValuesWithout(s: seq<ListItem>, j: nat)
      requires j < |s|
      ensures ValuesOf(Without(s, j)) == Without(ValuesOf(s), j)
    {
      WithoutIs(s, Without(s, j), j);
      WithoutFrom(ValuesOf(s), ValuesOf(Without(s, j)), j);
    }

    /** The search of vListInsert: the node behind which value xValueOfInsertion goes. */
    method FindPlace(xValueOfInsertion: nat) returns (pxIterator: ListItem)
      requires Valid() && xValueOfInsertion <= MAX_DELAY
      ensures pxIterator == Ring()[SortedPlace(Values(), xValueOfInsertion)]
    {
      ghost var ring, k := Ring(), SortedPlace(Values(), xValueOfInsertion);
      if xValueOfInsertion == MAX_DELAY {
        assert Joint(ring, |items|);
        return xListEnd.pxPrevious;
      }
      pxIterator := xListEnd;
      ghost var i := 0;
      assert Joint(ring, 0);
      while pxIterator.pxNext.xItemValue <= xValueOfInsertion
        invariant i <= k && pxIterator == ring[i] && Joint(ring, i)
        decreases k - i
      {
        pxIterator := pxIterator.pxNext;
        i := i + 1;
        assert Joint(ring, i);
      }
    }

    /** The two link writes of a removal of node j > 0 close the circle again. */
    static twostate lemma RemoveKeepsCircle(ring: seq<ListItem>, new j: nat)
      requires 0 < j < |ring| && old(Circle(ring)) && Linked(ring[j - 1], After(ring, j))
      requires OnlyRelinked(ring, ring[j - 1], After(ring, j))
      ensures Circle(Without(ring, j)) && ring[j] !in Without(ring, j)
    {
      var r := Without(ring, j);
      forall i | 0 <= i < |r| ensures r[i] != ring[j] {
        assert if i < j then Differ(ring, i, j) else Differ(ring, j, i + 1);
      }
      forall i | 0 <= i < |r| ensures Joint(r, i) {
        var m := if i < j then i else i + 1;
        assert old(Joint(ring, m));
        assert r[i] == ring[m];
        if m != j - 1 {
          assert if m < j - 1 then Differ(ring, m, j - 1) else Differ(ring, j - 1, m);
          var after, e := if j + 1 < |ring| then j + 1 else 0, if m + 1 < |ring| then m + 1 else 0;
          assert if e < after then Differ(ring, e, after) else Differ(ring, after, e);
        }
      }
      forall i, m | 0 <= i < m < |r| ensures Differ(r, i, m) {
        assert Differ(ring, if i < j then i else i + 1, if m < j then m else m + 1);
      }
    }

    /** The list is (was, wasAt) less its j-th item, which is x. */
    ghost predicate RemovedAt(was: seq<ListItem>, wasAt: nat, j: nat, x: ListItem)
      requires j < |was|
      reads this
    {
      was[j] == x && items == Without(was, j) && pos == RemovePos(wasAt, j)
    }

    /** The link writes of uxListRemove. */
    static method Unlink(x: ListItem)
      requires x.pxNext != null && x.pxPrevious != null
      modifies x.pxNext`pxPrevious, x.pxPrevious`pxNext
      ensures Linked(old(x.pxPrevious), old(x.pxNext))
    {
      x.pxNext.pxPrevious := x.pxPrevious;
      x.pxPrevious.pxNext := x.pxNext;
    }

    /** uxListRemove, on the list recorded as the item's container. A list in order stays in order. */
    method Remove(pxItemToRemove: ListItem) returns (uxLeft: nat)
      requires Valid() && pxItemToRemove in items
      modifies this, Ring()`pxNext, Ring()`pxPrevious, pxItemToRemove`pvContainer
      ensures Valid() && uxLeft == |items| && pxItemToRemove.pvContainer == null
      ensures exists j :: 0 <= j < |old(items)| && RemovedAt(old(items), old(pos), j, pxItemToRemove)
      ensures old(Ascending(Values())) ==> Ascending(Values())
    {
      ghost var was, values := items, Values();
      ghost var j :| 0 <= j < |items| && items[j] == pxItemToRemove;
      uxLeft := RemoveAt(pxItemToRemove, j);
      SameValues(was);
      ValuesWithout(was, j);
      if Ascending(values) { WithoutAscends(values, j); }
    }

    /** The same, with the place of the item. */
    method RemoveAt(pxItemToRemove: ListItem, ghost j: nat) returns (uxLeft: nat)
      requires Valid() && j < |items| && items[j] == pxItemToRemove
      modifies this, Ring()`pxNext, Ring()`pxPrevious, pxItemToRemove`pvContainer
      ensures Valid() && uxLeft == |items| && pxItemToRemove.pvContainer == null
      ensures RemovedAt(old(items), old(pos), j, pxItemToRemove)
    {
      ghost var ring := Ring();
      assert Joint(ring, j) && Joint(ring, j + 1);
      Unlink(pxItemToRemove);
      RemoveKeepsCircle(ring, j + 1);
      Dismiss(pxItemToRemove, j);
      uxLeft := uxNumberOfItems;
    }

    /** Forget item j, which has just been unlinked. */
    method Dismiss(x: ListItem, ghost j: nat)
      requires Registered() && j < |items| && items[j] == x && x.pxPrevious == Ring()[j]
      requires Circle(Without(Ring(), j + 1)) && x !in Without(Ring(), j + 1)
      modifies this, x`pvContainer
      ensures Valid() && RemovedAt(old(items), old(pos), j, x) && x.pvContainer == null
    {
      ghost var ring, was := Ring(), items;
      OnlyThere(ring, j + 1);
      WithoutIs(items, Without(items, j), j);
      if pxIndex == x {
        pxIndex := x.pxPrevious;
      }
      x.pvContainer := null;
      uxNumberOfItems := uxNumberOfItems - 1;
      items, pos := Without(items, j), RemovePos(pos, j);
      WithoutBehind(xListEnd, was, j);
      StillRegistered(was, j, x);
    }

    /** The other items stay registered. */
    lemma StillRegistered(was: seq<ListItem>, j: nat, x: ListItem)
      requires TakenOut(was, items, j) && (forall i :: 0 <= i < |was| && i != j ==> was[i] != x)
      requires forall i :: 0 <= i < |was| && was[i] != x ==>
        was[i].pvContainer == this && was[i].xItemValue <= MAX_DELAY
      ensures forall i :: 0 <= i < |items| ==> items[i].pvContainer == this && items[i].xItemValue <= MAX_DELAY
    {
    }

    /** listGET_OWNER_OF_NEXT_ENTRY, returning the item whose owner the macro reads. */
    method GetNextEntry() returns (pxItem: ListItem)
      requires Valid() && items != []
      modifies this`pxIndex, this`pos
      ensures Valid() && items == old(items)
      ensures pos == Advance(|items|, old(pos)) && pxItem == items[pos - 1]
    {
      ghost var ring := Ring();
      assert Joint(ring, pos) && Joint(ring, 0);
      assert 0 < |items| ==> Differ(ring, 0, Advance(|items|, pos));
      pxIndex := pxIndex.pxNext;
      if pxIndex == xListEnd {
        pxIndex := pxIndex.pxNext;
      }
      pos := Advance(|items|, pos);
      assert pos < |items| ==> Differ(ring, 0, pos);
      pxItem := pxIndex;
    }

    /** prvGetDisinheritPriorityAfterTimeout of queue.c, on the list of tasks waiting to receive, whose items hold
        configMAX_PRIORITIES less the priority: the highest priority of all waiting, or the idle priority. */
    method GetDisinheritPriorityAfterTimeout() returns (uxHighest: nat)
      requires Valid() && Ascending(Values())
      requires forall i :: 0 <= i < |items| ==> items[i].xItemValue <= MAX_PRIORITIES
      ensures items == [] ==> uxHighest == IDLE_PRIORITY
      ensures items != [] ==> exists i :: 0 <= i < |items| && uxHighest == MAX_PRIORITIES - items[i].xItemValue
      ensures forall i :: 0 <= i < |items| ==> MAX_PRIORITIES - items[i].xItemValue <= uxHighest
    {
      if uxNumberOfItems > 0 {
        assert Joint(Ring(), 0);
        uxHighest := MAX_PRIORITIES - xListEnd.pxNext.xItemValue;
        assert uxHighest == MAX_PRIORITIES - items[0].xItemValue;
        forall i | 0 <= i < |items| ensures items[0].xItemValue <= items[i].xItemValue {
          assert Values()[0] <= Values()[i];
        }
      } else {
        uxHighest := IDLE_PRIORITY;
      }
    }
  }
}
