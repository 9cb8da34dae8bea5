/** The functions of event_groups.c on the fields of an event group object. */
module EventGroupObject {
  import opened Wrappers
  import opened EventBits
  import EG = EventGroup

  class EventGroup {
    var uxEventBits: Bits
    var xTasksWaitingForBits: seq<Waiter>
    /** The values of the event list items that are not on the list. */
    var itemValues: map<Task, Bits>

    ghost function View(): Group
      reads this
    {
      Group(uxEventBits, xTasksWaitingForBits, itemValues)
    }

    constructor ()
      ensures View() == EG.Initial.group
    {
      uxEventBits, xTasksWaitingForBits, itemValues := {}, [], map[];
    }

    /** The pass has looked at the first n items of the list as it was. */
    ghost predicate Passed(was: seq<Waiter>, n: nat, current: nat, toClear: Bits, values: map<Task, Bits>)
      reads this
    {
      && n <= |was| && current <= |xTasksWaitingForBits|
      && xTasksWaitingForBits[..current] == Kept(was[..n], uxEventBits)
      && xTasksWaitingForBits[current..] == was[n..]
      && toClear == ClearMask(was[..n], uxEventBits)
      && itemValues == Deliver(values, Woken(was[..n], uxEventBits), uxEventBits)
    }

    /** xEventGroupSetBits, with the scheduler suspended: one pass over the list, and the clearing put off to its
        end. */
    method SetBits(toSet: Bits) returns (bits: Bits)
      modifies this
      ensures View() == EventBits.SetBits(old(View()), toSet) && bits == uxEventBits
    {
      ghost var was, values := xTasksWaitingForBits, itemValues;
      ghost var done: nat := 0;
      uxEventBits := uxEventBits + toSet;
      var toClear: Bits := {};
      var current: nat := 0;
      while current < |xTasksWaitingForBits|
        invariant Passed(was, done, current, toClear, values) && uxEventBits == old(uxEventBits) + toSet
        decreases |xTasksWaitingForBits| - current
      {
        current, toClear := LookAt(current, toClear, was, done, values);
        done := done + 1;
      }
      assert was[..done] == was;
      uxEventBits := uxEventBits - toClear;
      bits := uxEventBits;
    }

    /** One item: it leaves the list, and the next one takes its place, or the pass goes on behind it. */
    method LookAt(current: nat, toClear: Bits, ghost was: seq<Waiter>, ghost n: nat, ghost values: map<Task, Bits>)
        returns (next: nat, clears: Bits)
      requires current < |xTasksWaitingForBits| && Passed(was, n, current, toClear, values)
      modifies this`xTasksWaitingForBits, this`itemValues
      ensures Passed(was, n + 1, next, clears, values)
      ensures |xTasksWaitingForBits| - next == old(|xTasksWaitingForBits|) - current - 1
    {
      next, clears := current, toClear;
      if Matches(xTasksWaitingForBits[current].value) {
        clears := WakeUp(current, toClear, was, n, values);
      } else {
        SplitList(xTasksWaitingForBits, current, was, n);
        OneKept(was, n, uxEventBits);
        next := current + 1;
      }
    }

    /** An item that matches. */
    method WakeUp(current: nat, toClear: Bits, ghost was: seq<Waiter>, ghost n: nat, ghost values: map<Task, Bits>)
        returns (clears: Bits)
      requires current < |xTasksWaitingForBits| && Passed(was, n, current, toClear, values)
      requires Satisfied(xTasksWaitingForBits[current], uxEventBits)
      modifies this`xTasksWaitingForBits, this`itemValues
      ensures Passed(was, n + 1, current, clears, values)
      ensures |xTasksWaitingForBits| == old(|xTasksWaitingForBits|) - 1
    {
      var item := xTasksWaitingForBits[current];
      SplitList(xTasksWaitingForBits, current, was, n);
      clears := toClear;
      if CLEAR_EVENTS_ON_EXIT in item.value { clears := clears + Events(item.value); }
      OneMore(was, n, uxEventBits);
      OneDelivery(was, n, uxEventBits, values);
      RemoveFromUnorderedEventList(current, uxEventBits + {UNBLOCKED_DUE_TO_BIT_SET});
    }

    /** The test in the loop, with the bits waited for split from the control bits. */
    predicate Matches(value: Bits): (r: bool)
      reads this
      ensures r <==> TestWaitCondition(uxEventBits, Events(value), WAIT_FOR_ALL in value)
    {
      assert Events(value) * uxEventBits == Events(value) ==> Events(value) <= uxEventBits by {
        assert forall b :: b in Events(value) * uxEventBits ==> b in uxEventBits;
      }
      assert Events(value) * uxEventBits == uxEventBits * Events(value);
      if WAIT_FOR_ALL !in value then Events(value) * uxEventBits != {}
      else Events(value) * uxEventBits == Events(value)
    }

    /** For all its bits, or for any, of those that are not control bits. */
    lemma MatchesBits(value: Bits)
      ensures Matches(value) <==>
        if WAIT_FOR_ALL in value then forall b: Bit :: b < 24 && b in value ==> b in uxEventBits
        else exists b: Bit :: b < 24 && b in value && b in uxEventBits
    {
      ConditionIs(uxEventBits, Events(value), WAIT_FOR_ALL in value);
      EventsAre(value);
    }

    /** xEventGroupClearBits returns the bits as they were. */
    method ClearBits(toClear: Bits, ghost s: EG.State, ghost t: Task) returns (bits: Bits)
      requires View() == s.group && EG.Enabled(s, EG.ClearBits(t, toClear))
      modifies this`uxEventBits
      ensures View() == EG.Next(s, EG.ClearBits(t, toClear)).group && bits == old(uxEventBits)
      ensures forall b: Bit :: b in uxEventBits <==> b in old(uxEventBits) && b !in toClear
    {
      bits := uxEventBits;
      uxEventBits := uxEventBits - toClear;
    }

    /** Each of the bits awaited is set, or some bit is. */
    ghost predicate AwaitedSet(bits: Bits, waitFor: Bits, all: bool) {
      if all then forall b: Bit :: b in waitFor ==> b in bits else exists b: Bit :: b in waitFor && b in bits
    }

    /** xEventGroupWaitBits up to its block; None if the task has gone on the list. */
    method WaitBits(t: Task, waitFor: Bits, clear: bool, all: bool, blockTime: bool, ghost s: EG.State)
        returns (bits: Option<Bits>)
      requires View() == s.group && EG.Enabled(s, EG.WaitBits(t, waitFor, clear, all, blockTime))
      modifies this`uxEventBits, this`xTasksWaitingForBits
      ensures var s' := EG.Next(s, EG.WaitBits(t, waitFor, clear, all, blockTime));
        && View() == s'.group
        && match bits
           case None => EG.PcOf(s', t) == EG.Blocked(waitFor, clear, all)
           case Some(value) => EG.PcOf(s', t) == EG.Out && EG.Returned(s', t) == EG.Returned(s, t) + [value]
      ensures bits.Some? <==> !blockTime || AwaitedSet(old(uxEventBits), waitFor, all)
      ensures bits.Some? ==> bits.value == old(uxEventBits)
      ensures forall b: Bit :: b in uxEventBits <==>
        b in old(uxEventBits) && !(clear && b in waitFor && AwaitedSet(old(uxEventBits), waitFor, all))
    {
      ConditionIs(uxEventBits, waitFor, all);
      var current := uxEventBits;
      if TestWaitCondition(current, waitFor, all) {
        bits := Some(current);
        if clear { uxEventBits := uxEventBits - waitFor; }
      } else if !blockTime {
        bits := Some(current);
      } else {
        bits := None;
        var control: Bits := {};
        if clear { control := control + {CLEAR_EVENTS_ON_EXIT}; }
        if all { control := control + {WAIT_FOR_ALL}; }
        PlaceOnUnorderedEventList(t, waitFor + control);
        assert waitFor + control + {IN_USE} == EG.ItemValue(waitFor, clear, all);
      }
    }

    /** vTaskPlaceOnUnorderedEventList */
    method PlaceOnUnorderedEventList(t: Task, value: Bits)
      modifies this`xTasksWaitingForBits
      ensures xTasksWaitingForBits == old(xTasksWaitingForBits) + [Waiter(t, value + {IN_USE})]
    {
      xTasksWaitingForBits := xTasksWaitingForBits + [Waiter(t, value + {IN_USE})];
    }

    /** xEventGroupSync up to its block, in the three steps that the nested suspension makes one. */
    method Sync(t: Task, toSet: Bits, waitFor: Bits, blockTime: bool, ghost s: EG.State)
        returns (bits: Option<Bits>, ghost s': EG.State)
      requires View() == s.group && EG.Enabled(s, EG.SyncStart(t, toSet, waitFor, blockTime)) && s.depth == 0
      modifies this
      ensures EG.Legal(s, [EG.SyncStart(t, toSet, waitFor, blockTime), EG.SyncSet(t), EG.SyncDecide(t)])
      ensures s' == EG.After(s, [EG.SyncStart(t, toSet, waitFor, blockTime), EG.SyncSet(t), EG.SyncDecide(t)])
      ensures View() == s'.group && s'.depth == 0
      ensures match bits
        case None => EG.PcOf(s', t) == EG.Blocked(waitFor, true, true)
        case Some(value) => EG.PcOf(s', t) == EG.Out && EG.Returned(s', t) == EG.Returned(s, t) + [value]
      ensures bits.Some? <==> !blockTime || forall b: Bit :: b in waitFor ==> b in old(uxEventBits) || b in toSet
      ensures (forall b: Bit :: b in waitFor ==> b in old(uxEventBits) || b in toSet) ==>
        bits == Some(old(uxEventBits) + toSet) && forall b: Bit :: b in waitFor ==> b !in uxEventBits
    {
      ghost var s1 := EG.Next(s, EG.SyncStart(t, toSet, waitFor, blockTime));
      ghost var s2 := EG.Next(s1, EG.SyncSet(t));
      s' := EG.Next(s2, EG.SyncDecide(t));
      ThreeSteps(s, t, EG.SyncStart(t, toSet, waitFor, blockTime));
      AllAwaited(uxEventBits, toSet, waitFor);
      var original := uxEventBits;
      var _ := SetBits(toSet);
      bits := Decide(t, original + toSet, waitFor, blockTime);
    }

    lemma AllAwaited(bits: Bits, toSet: Bits, waitFor: Bits)
      ensures (forall b: Bit :: b in waitFor ==> b in bits || b in toSet) <==> waitFor <= bits + toSet
    {
    }

    /** The rest of xEventGroupSync: reached are the bits there were and those set. */
    method Decide(t: Task, reached: Bits, waitFor: Bits, blockTime: bool) returns (bits: Option<Bits>)
      modifies this`uxEventBits, this`xTasksWaitingForBits
      ensures bits == if waitFor <= reached then Some(reached) else if blockTime then None else Some(old(uxEventBits))
      ensures uxEventBits == if waitFor <= reached then old(uxEventBits) - waitFor else old(uxEventBits)
      ensures xTasksWaitingForBits == old(xTasksWaitingForBits)
        + if bits.None? then [Waiter(t, EG.ItemValue(waitFor, true, true))] else []
    {
      if waitFor <= reached {
        bits := Some(reached);
        uxEventBits := uxEventBits - waitFor;
      } else if blockTime {
        bits := None;
        PlaceOnUnorderedEventList(t, waitFor + {CLEAR_EVENTS_ON_EXIT, WAIT_FOR_ALL});
        assert waitFor + {CLEAR_EVENTS_ON_EXIT, WAIT_FOR_ALL} + {IN_USE} == EG.ItemValue(waitFor, true, true);
      } else {
        bits := Some(uxEventBits);
      }
    }

    /** What xEventGroupSync and xEventGroupWaitBits do when their task runs again. */
    method Unblock(t: Task, waitFor: Bits, clear: bool, all: bool, ghost s: EG.State) returns (bits: Bits)
      requires View() == s.group && EG.Enabled(s, EG.RunAgain(t)) && EG.PcOf(s, t) == EG.Blocked(waitFor, clear, all)
      modifies this`uxEventBits
      ensures View() == EG.Next(s, EG.RunAgain(t)).group
      ensures EG.Returned(EG.Next(s, EG.RunAgain(t)), t) == EG.Returned(s, t) + [bits]
      ensures forall b: Bit :: b in bits <==>
        b < 24 && b in if UNBLOCKED_DUE_TO_BIT_SET in itemValues[t] then itemValues[t] else old(uxEventBits)
      ensures var clears := clear && UNBLOCKED_DUE_TO_BIT_SET !in itemValues[t]
          && AwaitedSet(old(uxEventBits), waitFor, all);
        forall b: Bit :: b in uxEventBits <==> b in old(uxEventBits) && !(clears && b in waitFor)
    {
      ConditionIs(uxEventBits, waitFor, all);
      bits := itemValues[t];
      if UNBLOCKED_DUE_TO_BIT_SET !in bits {
        bits := uxEventBits;
        if TestWaitCondition(bits, waitFor, all) && clear { uxEventBits := uxEventBits - waitFor; }
      }
      bits := Events(bits);
    }

    /** vTaskRemoveFromUnorderedEventList */
    method RemoveFromUnorderedEventList(at: nat, value: Bits)
      requires at < |xTasksWaitingForBits|
      modifies this`xTasksWaitingForBits, this`itemValues
      ensures xTasksWaitingForBits == old(xTasksWaitingForBits[..at] + xTasksWaitingForBits[at + 1..])
      ensures itemValues == old(itemValues)[old(xTasksWaitingForBits[at]).task := value + {IN_USE}]
    {
      itemValues := itemValues[xTasksWaitingForBits[at].task := value + {IN_USE}];
      xTasksWaitingForBits := xTasksWaitingForBits[..at] + xTasksWaitingForBits[at + 1..];
    }
  }

  lemma EventsAre(value: Bits)
    ensures forall b: Bit :: b in Events(value) <==> b < 24 && b in value
  {
  }

  lemma ThreeSteps(s: EG.State, t: Task, e: EG.Step)
    requires e.SyncStart? && e.t == t && EG.Enabled(s, e) && s.depth == 0
    ensures var s1 := EG.Next(s, e);
      && EG.Enabled(s1, EG.SyncSet(t)) && EG.Enabled(EG.Next(s1, EG.SyncSet(t)), EG.SyncDecide(t))
      && EG.Legal(s, [e] + [EG.SyncSet(t), EG.SyncDecide(t)])
      && EG.After(s, [e] + [EG.SyncSet(t), EG.SyncDecide(t)]) == EG.Next(EG.Next(s1, EG.SyncSet(t)), EG.SyncDecide(t))
  {
    var s1 := EG.Next(s, e);
    var s2 := EG.Next(s1, EG.SyncSet(t));
    OneStep(s2, EG.SyncDecide(t), []);
    OneStep(s1, EG.SyncSet(t), [EG.SyncDecide(t)]);
    OneStep(s, e, [EG.SyncSet(t), EG.SyncDecide(t)]);
  }

  lemma OneStep(s: EG.State, e: EG.Step, rest: seq<EG.Step>)
    requires EG.Enabled(s, e) && EG.Legal(EG.Next(s, e), rest)
    ensures EG.Legal(s, [e] + rest) && EG.After(s, [e] + rest) == EG.After(EG.Next(s, e), rest)
  {
    assert ([e] + rest)[1..] == rest;
  }

  /** What one more item adds to the outcome of the pass. */
  lemma OneMore(was: seq<Waiter>, n: nat, bits: Bits)
    requires n < |was|
    ensures var more, before, item := was[..n + 1], was[..n], was[n];
      && Kept(more, bits) == Kept(before, bits) + (if Satisfied(item, bits) then [] else [item])
      && ClearMask(more, bits) == ClearMask(before, bits) + (if Clears(item, bits) then Events(item.value) else {})
      && Woken(more, bits) == Woken(before, bits) + (if Satisfied(item, bits) then {item.task} else {})
  {
    var more, before := was[..n + 1], was[..n];
    assert more[..n] == before && more == before + [was[n]];
  }

  lemma OneKept(was: seq<Waiter>, n: nat, bits: Bits)
    requires n < |was| && !Satisfied(was[n], bits)
    ensures var more, before := was[..n + 1], was[..n];
      && Kept(more, bits) == Kept(before, bits) + [was[n]]
      && ClearMask(more, bits) == ClearMask(before, bits) && Woken(more, bits) == Woken(before, bits)
  {
    OneMore(was, n, bits);
  }

  lemma OneDelivery(was: seq<Waiter>, n: nat, bits: Bits, values: map<Task, Bits>)
    requires n < |was| && Satisfied(was[n], bits)
    ensures Deliver(values, Woken(was[..n + 1], bits), bits)
         == Deliver(values, Woken(was[..n], bits), bits)[was[n].task := bits + {UNBLOCKED_DUE_TO_BIT_SET} + {IN_USE}]
  {
    OneMore(was, n, bits);
    assert Delivery(bits) == bits + {UNBLOCKED_DUE_TO_BIT_SET} + {IN_USE};
  }

  /** The list in the pass: what stays, then what is still to be looked at. */
  lemma SplitList(list: seq<Waiter>, current: nat, was: seq<Waiter>, n: nat)
    requires current < |list| && n < |was| && list[current..] == was[n..]
    ensures list[current] == was[n] && list[current + 1..] == was[n + 1..]
    ensures (list[..current] + list[current + 1..])[..current] == list[..current]
    ensures (list[..current] + list[current + 1..])[current..] == was[n + 1..]
    ensures list[..current + 1] == list[..current] + [was[n]]
  {
    assert list[current] == list[current..][0] && was[n] == was[n..][0];
    assert list[current + 1..] == list[current..][1..] && was[n + 1..] == was[n..][1..];
  }
}
