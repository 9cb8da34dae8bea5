/** Lists of items kept in the order of their values, each the item of a co-routine. */
module ItemList {
  import opened ListView

  type Co = nat

  datatype Item = Item(co: Co, value: nat)

  function Values(list: seq<Item>): (r: seq<nat>)
    ensures |r| == |list| && forall i :: 0 <= i < |list| ==> r[i] == list[i].value
  {
    if list == [] then [] else [list[0].value] + Values(list[1..])
  }

  /** vListInsert */
  function Insert(list: seq<Item>, item: Item): seq<Item> {
    if list == [] || list[0].value > item.value then [item] + list
    else [list[0]] + Insert(list[1..], item)
  }

  /** The place is the one that vListInsert finds on the linked list. */
  lemma {:induction false} InsertIsSorted(list: seq<Item>, item: Item)
    ensures Insert(list, item) == Inserted(list, SortedPlace(Values(list), item.value), item)
  {
    if list == [] || list[0].value > item.value {
      InsertedFirst(list, item);
    } else {
      InsertIsSorted(list[1..], item);
      InsertGoesOn(list[0], list[1..], item);
      assert [list[0]] + list[1..] == list;
    }
  }

  lemma InsertGoesOn(first: Item, rest: seq<Item>, item: Item)
    requires first.value <= item.value
      && Insert(rest, item) == Inserted(rest, SortedPlace(Values(rest), item.value), item)
    ensures var list := [first] + rest;
      [first] + Insert(rest, item) == Inserted(list, SortedPlace(Values(list), item.value), item)
  {
    var k := SortedPlace(Values(rest), item.value);
    ValuesBehind(first, rest);
    PlaceBehind(first.value, Values(rest), item.value);
    InsertedBehind(first, rest, k, item);
  }

  lemma ValuesBehind(first: Item, rest: seq<Item>)
    ensures Values([first] + rest) == [first.value] + Values(rest)
  {
    assert ([first] + rest)[1..] == rest;
  }

  lemma InsertedFirst<T>(list: seq<T>, item: T)
    ensures Inserted(list, 0, item) == [item] + list
  {
  }

  lemma PlaceBehind(first: nat, rest: seq<nat>, v: nat)
    requires first <= v
    ensures SortedPlace([first] + rest, v) == 1 + SortedPlace(rest, v)
  {
    assert ([first] + rest)[1..] == rest;
  }

  /** uxListRemove of the item of co, if it is on the list. */
  function Remove(list: seq<Item>, co: Co): seq<Item> {
    if list == [] then []
    else if list[0].co == co then list[1..]
    else [list[0]] + Remove(list[1..], co)
  }

  ghost predicate Has(list: seq<Item>, co: Co) {
    exists item :: item in list && item.co == co
  }

  /** No co-routine twice. */
  ghost predicate Distinct(list: seq<Item>) {
    forall i, j :: 0 <= i < j < |list| ==> list[i].co != list[j].co
  }

  ghost predicate Ascending(list: seq<Item>) {
    forall i, j :: 0 <= i < j < |list| ==> list[i].value <= list[j].value
  }

  ghost predicate Ordered(list: seq<Item>) {
    Distinct(list) && Ascending(list)
  }

  ghost predicate Disjoint(a: seq<Item>, b: seq<Item>) {
    forall i, j :: i in a && j in b ==> i.co != j.co
  }

  lemma InsertedAt<T>(s: seq<T>, k: nat, x: T)
    requires k <= |s|
    ensures |Inserted(s, k, x)| == |s| + 1
    ensures forall i :: 0 <= i <= |s| ==> Inserted(s, k, x)[i] == if i < k then s[i] else if i == k then x else s[i - 1]
    ensures forall y :: y in Inserted(s, k, x) <==> y == x || y in s
  {
    assert s == s[..k] + s[k..];
  }

  lemma InsertMembers(list: seq<Item>, item: Item)
    ensures forall x :: x in Insert(list, item) <==> x == item || x in list
  {
    InsertIsSorted(list, item);
    InsertedAt(list, SortedPlace(Values(list), item.value), item);
  }

  lemma InsertOrdered(list: seq<Item>, item: Item)
    requires Ordered(list) && !Has(list, item.co)
    ensures Ordered(Insert(list, item))
    ensures forall x :: x in Insert(list, item) <==> x == item || x in list
  {
    InsertMembers(list, item);
    InsertIsSorted(list, item);
    InsertDistinct(list, SortedPlace(Values(list), item.value), item);
    InsertAscending(list, item);
  }

  lemma InsertDistinct(list: seq<Item>, k: nat, item: Item)
    requires Distinct(list) && !Has(list, item.co) && k <= |list|
    ensures Distinct(Inserted(list, k, item))
  {
    var s := Inserted(list, k, item);
    InsertedAt(list, k, item);
    forall i | 0 <= i < |list| ensures list[i].co != item.co { assert list[i] in list; }
  }

  lemma {:induction false} InsertAscending(list: seq<Item>, item: Item)
    requires Ascending(list)
    ensures Ascending(Insert(list, item))
  {
    if list != [] {
      FirstIsLeast(list);
      if list[0].value <= item.value {
        InsertAscending(list[1..], item);
        InsertMembers(list[1..], item);
        LeastFirst(list[0], Insert(list[1..], item));
      } else {
        LeastFirst(item, list);
      }
    }
  }

  lemma {:induction false} RemoveMembers(list: seq<Item>, co: Co)
    requires Distinct(list)
    ensures Distinct(Remove(list, co))
    ensures forall x :: x in Remove(list, co) <==> x in list && x.co != co
  {
    if list != [] {
      var rest := list[1..];
      assert list == [list[0]] + rest;
      RemoveMembers(rest, co);
      forall x | x in Remove(rest, co) ensures list[0].co != x.co {
        var j :| 0 <= j < |rest| && rest[j] == x;
        assert list[j + 1] == x;
      }
    }
  }

  lemma {:induction false} RemoveKeeps(list: seq<Item>, co: Co)
    ensures forall x :: x in Remove(list, co) ==> x in list
    ensures forall x :: x in list && x.co != co ==> x in Remove(list, co)
  {
    if list != [] {
      assert list == [list[0]] + list[1..];
      RemoveKeeps(list[1..], co);
    }
  }

  lemma FirstIsLeast(list: seq<Item>)
    requires Ascending(list) && list != []
    ensures Ascending(list[1..]) && forall x :: x in list ==> list[0].value <= x.value
  {
  }

  lemma LeastFirst(first: Item, rest: seq<Item>)
    requires Ascending(rest) && forall x :: x in rest ==> first.value <= x.value
    ensures Ascending([first] + rest)
  {
    forall i | 0 <= i < |rest| ensures first.value <= rest[i].value {}
  }

  lemma {:induction false} RemoveAscending(list: seq<Item>, co: Co)
    requires Ascending(list)
    ensures Ascending(Remove(list, co))
  {
    if list != [] {
      FirstIsLeast(list);
      if list[0].co != co {
        RemoveAscending(list[1..], co);
        RemoveKeeps(list[1..], co);
        LeastFirst(list[0], Remove(list[1..], co));
      }
    }
  }

  lemma RemoveOrdered(list: seq<Item>, co: Co)
    requires Ordered(list)
    ensures Ordered(Remove(list, co))
    ensures forall x :: x in Remove(list, co) <==> x in list && x.co != co
  {
    RemoveMembers(list, co);
    RemoveAscending(list, co);
  }

  /** Removing the head is removing its co-routine. */
  lemma RemoveHead(list: seq<Item>)
    requires list != []
    ensures Remove(list, list[0].co) == list[1..]
  {
  }
}
