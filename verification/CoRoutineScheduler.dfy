/** The functions of croutine.c on its variables. */
module CoRoutineScheduler {
  import opened Wrappers
  import opened ListView
  import opened ItemList
  import opened CoRoutine

  class CoRoutines {
    /** Of the control blocks. */
    var uxPriority: map<Co, nat>
    var pxReadyCoRoutineLists: seq<Ready>
    var pxDelayedCoRoutineList: seq<Item>
    var pxOverflowDelayedCoRoutineList: seq<Item>
    var xPendingReadyCoRoutineList: seq<Item>
    /** The event lists of the queues. */
    var eventLists: map<nat, seq<Item>>
    var uxTopCoRoutineReadyPriority: nat
    var pxCurrentCoRoutine: Option<Co>
    var xCoRoutineTickCount: nat
    var xLastTickCount: nat
    var xPassedTicks: nat
    ghost var phase: Phase
    ghost var ran: Option<Co>
    ghost var base: nat
    ghost var due: map<Co, nat>
    ghost var log: seq<Wake>
    ghost var history: seq<Step>

    ghost function View(): State
      reads this
    {
      State(uxPriority, pxReadyCoRoutineLists, pxDelayedCoRoutineList, pxOverflowDelayedCoRoutineList,
            xPendingReadyCoRoutineList, eventLists, uxTopCoRoutineReadyPriority, pxCurrentCoRoutine,
            xCoRoutineTickCount, xLastTickCount, phase, ran, base, due, log)
    }

    /** The variables are what the steps taken so far, interrupts included, make of their initial values. */
    ghost predicate Valid()
      reads this
    {
      Legal(Initial, history) && After(Initial, history) == View()
    }

    /** A step has been taken from state was. */
    ghost method Did(was: State, e: Step)
      requires Legal(Initial, history) && After(Initial, history) == was && Enabled(was, e) && View() == Next(was, e)
      modifies this`history
      ensures Valid() && history == old(history) + [e]
    {
      Extend(Initial, history, e);
      history := history + [e];
    }

    /** prvInitialiseCoRoutineLists, and the initial values. */
    constructor ()
      ensures Valid() && history == [] && View() == Initial
    {
      uxPriority, pxReadyCoRoutineLists := map[], seq(MAX_PRIORITIES, _ => Ready([], 0));
      pxDelayedCoRoutineList, pxOverflowDelayedCoRoutineList := [], [];
      xPendingReadyCoRoutineList, eventLists := [], map[];
      uxTopCoRoutineReadyPriority, pxCurrentCoRoutine := 0, None;
      xCoRoutineTickCount, xLastTickCount, xPassedTicks := 0, 0, 0;
      phase, ran, base, due, log, history := Running, None, 0, map[], [], [];
    }

    /** prvAddCoRoutineToReadyQueue */
    method AddCoRoutineToReadyQueue(co: Co)
      requires Shape(View()) && co in uxPriority
      modifies this`uxTopCoRoutineReadyPriority, this`pxReadyCoRoutineLists
      ensures View() == AddToReady(old(View()), co)
    {
      var p := uxPriority[co];
      if p > uxTopCoRoutineReadyPriority { uxTopCoRoutineReadyPriority := p; }
      var list := pxReadyCoRoutineLists[p];
      pxReadyCoRoutineLists :=
        pxReadyCoRoutineLists[p := Ready(InsertEnd(list.items, list.pos, co), InsertEndPos(list.pos))];
    }

    method CreateCoRoutine(co: Co, priority: nat)
      requires Valid() && Enabled(View(), CreateStep(co, priority))
      modifies this
      ensures Valid() && history == old(history) + [CreateStep(co, priority)]
      ensures uxPriority == old(uxPriority)[co := if priority < MAX_PRIORITIES then priority else MAX_PRIORITIES - 1]
    {
      ghost var was := View();
      if pxCurrentCoRoutine == None { pxCurrentCoRoutine := Some(co); }
      var p := priority;
      if p >= MAX_PRIORITIES { p := MAX_PRIORITIES - 1; }
      uxPriority := uxPriority[co := p];
      AddCoRoutineToReadyQueue(co);
      Did(was, CreateStep(co, priority));
    }

    method AddToDelayedList(xTicksToDelay: nat, pxEventList: Option<nat>)
      requires Valid() && Enabled(View(), DelayStep(xTicksToDelay, pxEventList))
      modifies this
      ensures Valid() && history == old(history) + [DelayStep(xTicksToDelay, pxEventList)]
    {
      ghost var was := View();
      DelayCurrent(xTicksToDelay, pxEventList);
      Did(was, DelayStep(xTicksToDelay, pxEventList));
    }

    /** The body of vCoRoutineAddToDelayedList. */
    method DelayCurrent(xTicksToDelay: nat, pxEventList: Option<nat>)
      requires Shape(View()) && CurrentIsReady(View()) && xTicksToDelay < WORD
      modifies this`due, this`pxReadyCoRoutineLists, this`pxDelayedCoRoutineList, this`pxOverflowDelayedCoRoutineList,
        this`eventLists
      ensures View() == AddToDelayed(old(View()), xTicksToDelay, pxEventList)
    {
      var co := pxCurrentCoRoutine.value;
      var p := uxPriority[co];
      var xTimeToWake := Wrap(xCoRoutineTickCount + xTicksToDelay);
      due := due[co := base + xCoRoutineTickCount + xTicksToDelay];
      pxReadyCoRoutineLists := pxReadyCoRoutineLists[p := RemoveReady(pxReadyCoRoutineLists[p], co)];
      InsertDelayed(Item(co, xTimeToWake));
      AwaitEvent(pxEventList, Item(co, MAX_PRIORITIES - p));
    }

    method AwaitEvent(pxEventList: Option<nat>, item: Item)
      modifies this`eventLists
      ensures eventLists == Awaiting(old(eventLists), pxEventList, item)
    {
      if pxEventList.Some? {
        eventLists := AddEvent(eventLists, pxEventList.value, item);
      }
    }

    /** The wake time tells on which of the two lists its item belongs. */
    method InsertDelayed(item: Item)
      modifies this`pxDelayedCoRoutineList, this`pxOverflowDelayedCoRoutineList
      ensures pxDelayedCoRoutineList == Delayed(old(pxDelayedCoRoutineList), item, !(item.value < xCoRoutineTickCount))
      ensures pxOverflowDelayedCoRoutineList ==
        Delayed(old(pxOverflowDelayedCoRoutineList), item, item.value < xCoRoutineTickCount)
    {
      if item.value < xCoRoutineTickCount {
        pxOverflowDelayedCoRoutineList := Insert(pxOverflowDelayedCoRoutineList, item);
      } else {
        pxDelayedCoRoutineList := Insert(pxDelayedCoRoutineList, item);
      }
    }

    /** xCoRoutineRemoveFromEventList: whether the co-routine readied is at least as urgent as the current one. */
    method RemoveFromEventList(e: nat) returns (urgent: bool)
      requires e in eventLists && eventLists[e] != [] && eventLists[e][0].co in uxPriority
      requires pxCurrentCoRoutine.Some? && pxCurrentCoRoutine.value in uxPriority
      modifies this`xPendingReadyCoRoutineList, this`eventLists
      ensures View() == TakeEvent(old(View()), e)
      ensures xPendingReadyCoRoutineList == old(xPendingReadyCoRoutineList) + [old(eventLists)[e][0]]
      ensures old(eventLists)[e] == [old(eventLists)[e][0]] + eventLists[e]
      ensures eventLists == old(eventLists)[e := eventLists[e]]
      ensures urgent <==> uxPriority[old(eventLists[e][0].co)] >= uxPriority[pxCurrentCoRoutine.value]
    {
      var item := eventLists[e][0];
      eventLists := eventLists[e := eventLists[e][1..]];
      xPendingReadyCoRoutineList := xPendingReadyCoRoutineList + [item];
      urgent := uxPriority[item.co] >= uxPriority[pxCurrentCoRoutine.value];
    }

    /** Wherever interrupts are enabled, any number of them may come. */
    method Interrupts()
      requires Valid() && pxCurrentCoRoutine.Some?
      modifies this`xPendingReadyCoRoutineList, this`eventLists, this`history
      ensures Valid() && old(history) <= history
    {
      var n: nat := *;
      while n > 0
        invariant Valid() && old(history) <= history
      {
        var e: nat := *;
        if e in eventLists && eventLists[e] != [] {
          ghost var was := View();
          ReachedFacts(history, was);
          HeadIsCreated(history, was, e);
          var _ := RemoveFromEventList(e);
          Did(was, EventStep(e));
        }
        n := n - 1;
      }
    }

    /** One turn of prvCheckPendingReadyList. */
    method UnpendHead()
      requires Shape(View()) && xPendingReadyCoRoutineList != [] && xPendingReadyCoRoutineList[0].co in uxPriority
      modifies this`pxDelayedCoRoutineList, this`pxOverflowDelayedCoRoutineList, this`xPendingReadyCoRoutineList,
        this`log,
        this`uxTopCoRoutineReadyPriority, this`pxReadyCoRoutineLists
      ensures View() == Unpend(old(View()))
    {
      var co := xPendingReadyCoRoutineList[0].co;
      xPendingReadyCoRoutineList := xPendingReadyCoRoutineList[1..];
      pxDelayedCoRoutineList := Remove(pxDelayedCoRoutineList, co);
      pxOverflowDelayedCoRoutineList := Remove(pxOverflowDelayedCoRoutineList, co);
      log := log + [Readied(co, base + xCoRoutineTickCount)];
      AddCoRoutineToReadyQueue(co);
    }

    method CheckPendingReadyList()
      requires Valid() && phase.Unpending? && pxCurrentCoRoutine.Some?
      modifies this
      ensures Valid() && phase.Unpending? && pxCurrentCoRoutine.Some? && xPendingReadyCoRoutineList == []
      ensures old(history) <= history
    {
      Interrupts();
      while xPendingReadyCoRoutineList != []
        invariant Valid() && phase.Unpending? && pxCurrentCoRoutine.Some? && old(history) <= history
        decreases |pxDelayedCoRoutineList| + |pxOverflowDelayedCoRoutineList|
      {
        UnpendStepTaken();
        Interrupts();
      }
    }

    method UnpendStepTaken()
      requires Valid() && phase.Unpending? && xPendingReadyCoRoutineList != []
      modifies this
      ensures Valid() && phase == old(phase) && pxCurrentCoRoutine == old(pxCurrentCoRoutine) && old(history) <= history
      ensures |pxDelayedCoRoutineList| + |pxOverflowDelayedCoRoutineList| <
        old(|pxDelayedCoRoutineList| + |pxOverflowDelayedCoRoutineList|)
    {
      ghost var was := View();
      ReachedFacts(history, was);
      PendingIsDelayed(history, was);
      UnpendHead();
      Did(was, UnpendStep);
    }

    /** One turn of the inner loop of prvCheckDelayedList. */
    method ExpireHead()
      requires Shape(View()) && pxDelayedCoRoutineList != [] && pxDelayedCoRoutineList[0].co in uxPriority
      modifies this`pxDelayedCoRoutineList, this`xPendingReadyCoRoutineList, this`eventLists, this`log,
        this`uxTopCoRoutineReadyPriority, this`pxReadyCoRoutineLists
      ensures View() == Expire(old(View()))
    {
      var co := pxDelayedCoRoutineList[0].co;
      pxDelayedCoRoutineList := pxDelayedCoRoutineList[1..];
      xPendingReadyCoRoutineList := Remove(xPendingReadyCoRoutineList, co);
      eventLists := map e | e in eventLists :: Remove(eventLists[e], co);
      log := log + [TimedOut(co, base + xCoRoutineTickCount)];
      AddCoRoutineToReadyQueue(co);
    }

    /** The increment of the tick count, and the swap of the lists when it wraps. */
    method CountTick()
      requires phase.Ticking? && xPassedTicks == phase.passed > 0 && xCoRoutineTickCount < WORD
      modifies this`xCoRoutineTickCount, this`xPassedTicks, this`phase, this`base, this`pxDelayedCoRoutineList,
        this`pxOverflowDelayedCoRoutineList
      ensures View() == Tick(old(View())) && xPassedTicks == phase.passed
    {
      ghost var was := View();
      phase := Expiring(phase.passed - 1, phase.ticks);
      xCoRoutineTickCount := Wrap(xCoRoutineTickCount + 1);
      xPassedTicks := xPassedTicks - 1;
      assert View() == was.(tick := Wrap(was.tick + 1), phase := phase);
      SwapLists();
    }

    method SwapLists()
      modifies this`base, this`pxDelayedCoRoutineList, this`pxOverflowDelayedCoRoutineList
      ensures View() == SwapAtWrap(old(View()))
    {
      if xCoRoutineTickCount == 0 {
        var pxTemp := pxDelayedCoRoutineList;
        pxDelayedCoRoutineList := pxOverflowDelayedCoRoutineList;
        pxOverflowDelayedCoRoutineList := pxTemp;
        base := base + WORD;
      }
    }

    /** The inner loop: every delay that is over at this tick. */
    method ExpireAll()
      requires Valid() && phase.Expiring? && xPassedTicks == phase.passed && pxCurrentCoRoutine.Some?
      modifies this
      ensures Valid() && phase == Ticking(old(phase.passed), old(phase.ticks)) && xPassedTicks == phase.passed
      ensures pxCurrentCoRoutine.Some? && old(history) <= history
    {
      while pxDelayedCoRoutineList != []
        invariant Valid() && phase == old(phase) && xPassedTicks == phase.passed && pxCurrentCoRoutine.Some?
        invariant old(history) <= history
        decreases |pxDelayedCoRoutineList|
      {
        if xCoRoutineTickCount < pxDelayedCoRoutineList[0].value { break; }
        ExpireStepTaken();
        Interrupts();
      }
      EndExpiry();
    }

    method ExpireStepTaken()
      requires Valid() && phase.Expiring?
      requires pxDelayedCoRoutineList != [] && pxDelayedCoRoutineList[0].value <= xCoRoutineTickCount
      modifies this
      ensures Valid() && phase == old(phase) && xPassedTicks == old(xPassedTicks) && old(history) <= history
      ensures pxCurrentCoRoutine == old(pxCurrentCoRoutine) && |pxDelayedCoRoutineList| < old(|pxDelayedCoRoutineList|)
    {
      ghost var was := View();
      ReachedFacts(history, was);
      DelayedIsCreated(history, was);
      ExpireHead();
      Did(was, ExpireStep);
    }

    ghost method EndExpiry()
      requires Valid() && phase.Expiring?
      requires pxDelayedCoRoutineList == [] || xCoRoutineTickCount < pxDelayedCoRoutineList[0].value
      modifies this`phase, this`history
      ensures Valid() && phase == Ticking(old(phase.passed), old(phase.ticks)) && old(history) <= history
    {
      var was := View();
      ReachedFacts(history, was);
      phase := Ticking(phase.passed, phase.ticks);
      Did(was, ExpiredStep);
    }

    /** prvCheckDelayedList; ticks is what xTaskGetTickCount returns. */
    method CheckDelayedList(ticks: nat)
      requires Valid() && phase.Unpending? && xPendingReadyCoRoutineList == [] && pxCurrentCoRoutine.Some?
        && ticks < WORD
      modifies this
      ensures Valid() && phase == Ticking(0, ticks) && pxCurrentCoRoutine.Some? && old(history) <= history
    {
      ReadTicks(ticks);
      while xPassedTicks > 0
        invariant Valid() && phase == Ticking(xPassedTicks, ticks) && pxCurrentCoRoutine.Some?
          && old(history) <= history
      {
        TickOnce();
        Interrupts();
        ExpireAll();
      }
    }

    method ReadTicks(ticks: nat)
      requires Valid() && phase.Unpending? && xPendingReadyCoRoutineList == [] && ticks < WORD
      modifies this`xPassedTicks, this`phase, this`history
      ensures Valid() && phase == Ticking(xPassedTicks, ticks) && old(history) <= history
    {
      ghost var was := View();
      ReachedFacts(history, was);
      xPassedTicks := Wrap(ticks + WORD - xLastTickCount);
      phase := Ticking(xPassedTicks, ticks);
      Did(was, ReadTicksStep(ticks));
    }

    method TickOnce()
      requires Valid() && phase.Ticking? && xPassedTicks == phase.passed > 0
      modifies this
      ensures Valid() && phase == Expiring(xPassedTicks, old(phase.ticks)) && xPassedTicks == old(xPassedTicks) - 1
      ensures pxCurrentCoRoutine == old(pxCurrentCoRoutine) && old(history) <= history
    {
      ghost var was := View();
      ReachedFacts(history, was);
      CountTick();
      Did(was, TickStep);
    }

    /** vCoRoutineSchedule, up to the call of the co-routine. */
    method Schedule(ticks: nat) returns (co: Option<Co>)
      requires Valid() && phase.Running? && pxCurrentCoRoutine.Some? && ticks < WORD
      modifies this
      ensures Valid() && phase.Running? && pxCurrentCoRoutine.Some? && old(history) <= history
      ensures xCoRoutineTickCount == xLastTickCount == ticks && co == ran
      ensures match co
        case None => forall c :: !IsReady(pxReadyCoRoutineLists, uxPriority, c)
        case Some(next) =>
          && pxCurrentCoRoutine == co && IsReady(pxReadyCoRoutineLists, uxPriority, next)
          && forall c :: IsReady(pxReadyCoRoutineLists, uxPriority, c) ==> uxPriority[c] <= uxPriority[next]
    {
      Start();
      CheckPendingReadyList();
      CheckDelayedList(ticks);
      ghost var was := View();
      ReachedFacts(history, was);
      DispatchFacts(history, was);
      co := DispatchNext();
      Did(was, DispatchStep);
    }

    ghost method Start()
      requires Valid() && phase.Running? && pxCurrentCoRoutine.Some?
      modifies this`phase, this`history
      ensures Valid() && phase.Unpending? && old(history) <= history
    {
      var was := View();
      ReachedFacts(history, was);
      phase := Unpending;
      Did(was, StartStep);
    }

    /** Down to a priority with a ready co-routine, or to the lowest. */
    method FindReady()
      requires uxTopCoRoutineReadyPriority < |pxReadyCoRoutineLists|
      modifies this`uxTopCoRoutineReadyPriority
      ensures uxTopCoRoutineReadyPriority == Descend(pxReadyCoRoutineLists, old(uxTopCoRoutineReadyPriority))
    {
      while pxReadyCoRoutineLists[uxTopCoRoutineReadyPriority].items == []
        invariant uxTopCoRoutineReadyPriority < |pxReadyCoRoutineLists|
        invariant Descend(pxReadyCoRoutineLists, uxTopCoRoutineReadyPriority) ==
          Descend(pxReadyCoRoutineLists, old(uxTopCoRoutineReadyPriority))
        decreases uxTopCoRoutineReadyPriority
      {
        if uxTopCoRoutineReadyPriority == 0 { return; }
        uxTopCoRoutineReadyPriority := uxTopCoRoutineReadyPriority - 1;
      }
    }

    /** The rest of vCoRoutineSchedule: the descent, and the step of the walk along the list found. */
    method DispatchNext() returns (co: Option<Co>)
      requires Shape(View())
      modifies this`xLastTickCount, this`phase, this`uxTopCoRoutineReadyPriority, this`pxReadyCoRoutineLists, this`ran,
        this`pxCurrentCoRoutine
      ensures View() == Dispatch(old(View())) && co == ran
    {
      ghost var was := View();
      xLastTickCount := xCoRoutineTickCount;
      phase := Running;
      FindReady();
      assert View() == was.(top := Descend(was.ready, was.top), last := was.tick, phase := Running);
      co := CallNext();
    }

    /** The step of the walk along the list of the priority found. */
    method CallNext() returns (co: Option<Co>)
      requires uxTopCoRoutineReadyPriority < |pxReadyCoRoutineLists|
      requires ReadyAt(View()).pos <= |ReadyAt(View()).items|
      modifies this`pxReadyCoRoutineLists, this`ran, this`pxCurrentCoRoutine
      ensures View() == Call(old(View())) && co == ran
    {
      var list := pxReadyCoRoutineLists[uxTopCoRoutineReadyPriority];
      co := None;
      if list.items != [] {
        var pos := Advance(|list.items|, list.pos);
        pxReadyCoRoutineLists := pxReadyCoRoutineLists[uxTopCoRoutineReadyPriority := list.(pos := pos)];
        co := Some(list.items[pos - 1]);
        pxCurrentCoRoutine := co;
      }
      ran := co;
    }
  }

  // ----- What the steps may rely on, in every state that is reached -----

  lemma ReachedFacts(run: seq<Step>, s: State)
    requires Legal(Initial, run) && s == After(Initial, run)
    ensures Shape(s) && (s.current.Some? ==> s.current.value in s.priority)
    ensures s.phase.Ticking? && s.phase.passed == 0 ==> s.tick == s.phase.ticks
  {
    InitialOk();
    InvRun(Initial, run);
    ShapeOk(s);
  }

  lemma HeadIsCreated(run: seq<Step>, s: State, e: nat)
    requires Legal(Initial, run) && s == After(Initial, run) && e in s.events && s.events[e] != []
    ensures s.events[e][0].co in s.priority
  {
    InitialOk();
    InvRun(Initial, run);
    assert EventListOk(s.delayed, s.overflow, s.pending, s.events[e]);
    NotPassed(s, s.events[e][0].co);
  }

  lemma PendingIsDelayed(run: seq<Step>, s: State)
    requires Legal(Initial, run) && s == After(Initial, run) && s.pending != []
    ensures s.pending[0].co in s.priority
    ensures |Remove(s.delayed, s.pending[0].co)| + |Remove(s.overflow, s.pending[0].co)| < |s.delayed| + |s.overflow|
  {
    InitialOk();
    InvRun(Initial, run);
    var co := s.pending[0].co;
    assert s.pending[0] in s.pending;
    NotPassed(s, co);
    RemoveShortens(s.delayed, co);
    RemoveShortens(s.overflow, co);
  }

  lemma {:induction false} RemoveShortens(list: seq<Item>, co: Co)
    ensures |Remove(list, co)| == |list| - if Has(list, co) then 1 else 0
  {
    if list != [] {
      assert list == [list[0]] + list[1..];
      if list[0].co != co {
        RemoveShortens(list[1..], co);
        assert Has(list, co) <==> Has(list[1..], co);
      }
    }
  }

  lemma DelayedIsCreated(run: seq<Step>, s: State)
    requires Legal(Initial, run) && s == After(Initial, run) && s.delayed != []
    ensures s.delayed[0].co in s.priority
  {
    InitialOk();
    InvRun(Initial, run);
    assert s.delayed[0] in s.delayed;
    NotPassed(s, s.delayed[0].co);
  }

  lemma DispatchFacts(run: seq<Step>, s: State)
    requires Legal(Initial, run) && s == After(Initial, run) && Shape(s)
    ensures var s' := Dispatch(s);
      match s'.ran
      case None => forall co :: !IsReady(s'.ready, s'.priority, co)
      case Some(co) =>
        && s'.current == Some(co) && IsReady(s'.ready, s'.priority, co)
        && forall c :: IsReady(s'.ready, s'.priority, c) ==> s'.priority[c] <= s'.priority[co]
  {
    InitialOk();
    InvRun(Initial, run);
    DispatchesHighest(s);
  }
}
