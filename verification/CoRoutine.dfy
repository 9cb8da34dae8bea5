/** croutine.c: the co-routines of one kernel, and the interrupts that ready them. A step is what happens between
  two points at which an interrupt may come. */
module CoRoutine {
  import opened Wrappers
  import opened ListView
  import opened ItemList

  /** TickType_t has 32 bits. */
  const WORD := 0x1_0000_0000

  /** configMAX_CO_ROUTINE_PRIORITIES */
  const MAX_PRIORITIES := 2

  /** A ready list: its items, and where its index stands. */
  datatype Ready = Ready(items: seq<Co>, pos: nat)

  datatype Phase =
    | Running                            // a co-routine, or any code that is not the co-routine scheduler
    | Unpending                          // in prvCheckPendingReadyList
    | Ticking(passed: nat, ticks: nat)   // in prvCheckDelayedList, with xPassedTicks; ticks: of xTaskGetTickCount
    | Expiring(passed: nat, ticks: nat)  // in its inner loop

  /** How a co-routine became ready again, and the time. */
  datatype Wake = TimedOut(co: Co, at: nat) | Readied(co: Co, at: nat)

  /** The variables of croutine.c; the values of the items are with the lists. events: the event lists. ran: the
      co-routine the scheduler called last. base + tick is the time since the start, unbounded; due the time at
      which a delay is over; log the wakes. */
  datatype State = State(
    priority: map<Co, nat>, ready: seq<Ready>, delayed: seq<Item>, overflow: seq<Item>, pending: seq<Item>,
    events: map<nat, seq<Item>>, top: nat, current: Option<Co>, tick: nat, last: nat,
    phase: Phase, ran: Option<Co>, base: nat, due: map<Co, nat>, log: seq<Wake>)

  const Initial: State := State(
    map[], seq(MAX_PRIORITIES, _ => Ready([], 0)), [], [], [], map[], 0, None, 0, 0, Running, None, 0, map[], [])

  /** What is left of a sum, or of a difference plus 2^32, in 32 bits. */
  function Wrap(k: nat): (r: nat)
    requires k < 2 * WORD
    ensures r < WORD
  {
    if k < WORD then k else k - WORD
  }

  function Now(s: State): nat {
    s.base + s.tick
  }

  function EventList(s: State, e: nat): seq<Item> {
    if e in s.events then s.events[e] else []
  }

  /** prvAddCoRoutineToReadyQueue */
  function AddToReady(s: State, co: Co): State
    requires co in s.priority && s.priority[co] < |s.ready|
    requires s.ready[s.priority[co]].pos <= |s.ready[s.priority[co]].items|
  {
    var p := s.priority[co];
    var list := s.ready[p];
    s.(top := if p > s.top then p else s.top,
       ready := s.ready[p := Ready(InsertEnd(list.items, list.pos, co), InsertEndPos(list.pos))])
  }

  function IndexOf(items: seq<Co>, co: Co): (j: nat)
    requires co in items
    ensures j < |items| && items[j] == co
  {
    if items[0] == co then 0 else 1 + IndexOf(items[1..], co)
  }

  function RemoveReady(list: Ready, co: Co): Ready
    requires co in list.items && list.pos <= |list.items|
  {
    var j := IndexOf(list.items, co);
    Ready(Without(list.items, j), RemovePos(list.pos, j))
  }

  /** xCoRoutineCreate, once the control block has been allocated. */
  function Create(s: State, co: Co, uxPriority: nat): State
    requires Shape(s) && co !in s.priority
  {
    var p := if uxPriority >= MAX_PRIORITIES then MAX_PRIORITIES - 1 else uxPriority;
    var s1 := s.(priority := s.priority[co := p], current := if s.current == None then Some(co) else s.current);
    AddToReady(s1, co)
  }

  /** vCoRoutineAddToDelayedList by the current co-routine, with or without an event list. */
  function AddToDelayed(s: State, xTicksToDelay: nat, event: Option<nat>): State
    requires Shape(s) && CurrentIsReady(s) && xTicksToDelay < WORD
  {
    var co := s.current.value;
    var p := s.priority[co];
    var xTimeToWake := Wrap(s.tick + xTicksToDelay);
    var item := Item(co, xTimeToWake);
    s.(ready := s.ready[p := RemoveReady(s.ready[p], co)],
       overflow := Delayed(s.overflow, item, xTimeToWake < s.tick),
       delayed := Delayed(s.delayed, item, !(xTimeToWake < s.tick)),
       events := Awaiting(s.events, event, Item(co, MAX_PRIORITIES - p)),
       due := s.due[co := Now(s) + xTicksToDelay])
  }

  function Awaiting(events: map<nat, seq<Item>>, event: Option<nat>, item: Item): map<nat, seq<Item>> {
    if event.None? then events else AddEvent(events, event.value, item)
  }

  function AddEvent(events: map<nat, seq<Item>>, e: nat, item: Item): map<nat, seq<Item>> {
    events[e := Insert(if e in events then events[e] else [], item)]
  }

  predicate CurrentIsReady(s: State)
    requires Shape(s)
  {
    s.current.Some? && s.current.value in s.priority
      && s.current.value in s.ready[s.priority[s.current.value]].items
  }

  /** Enough for the functions to be defined. */
  predicate Shape(s: State) {
    && s.tick < WORD && s.last < WORD
    && |s.ready| == MAX_PRIORITIES && s.top < MAX_PRIORITIES
    && (forall co :: co in s.priority ==> s.priority[co] < MAX_PRIORITIES)
    && forall p :: 0 <= p < MAX_PRIORITIES ==> s.ready[p].pos <= |s.ready[p].items|
  }

  /** uxListRemove of an event item from whatever list it is on. */
  function RemoveEvent(s: State, co: Co): State {
    s.(pending := Remove(s.pending, co), events := map e | e in s.events :: Remove(s.events[e], co))
  }

  /** xCoRoutineRemoveFromEventList, called by an interrupt. */
  function TakeEvent(s: State, e: nat): State
    requires EventList(s, e) != []
  {
    var list := s.events[e];
    s.(events := s.events[e := list[1..]], pending := s.pending + [list[0]])
  }

  /** One turn of prvCheckPendingReadyList. */
  function Unpend(s: State): State
    requires Shape(s) && s.pending != [] && s.pending[0].co in s.priority
  {
    var co := s.pending[0].co;
    var s1 := s.(pending := s.pending[1..], delayed := Remove(s.delayed, co), overflow := Remove(s.overflow, co),
                 log := s.log + [Readied(co, Now(s))]);
    AddToReady(s1, co)
  }

  /** One turn of the outer loop of prvCheckDelayedList, up to its inner loop. */
  function Tick(s: State): State
    requires s.phase.Ticking? && s.phase.passed > 0 && s.tick < WORD
  {
    SwapAtWrap(s.(tick := Wrap(s.tick + 1), phase := Expiring(s.phase.passed - 1, s.phase.ticks)))
  }

  function SwapAtWrap(s: State): State {
    if s.tick == 0 then s.(delayed := s.overflow, overflow := s.delayed, base := s.base + WORD) else s
  }

  /** One turn of its inner loop. */
  function Expire(s: State): State
    requires Shape(s) && s.delayed != [] && s.delayed[0].co in s.priority
  {
    AddToReady(Expired(s), s.delayed[0].co)
  }

  function Expired(s: State): State
    requires s.delayed != []
  {
    var co := s.delayed[0].co;
    RemoveEvent(s.(delayed := s.delayed[1..], log := s.log + [TimedOut(co, Now(s))]), co)
  }

  /** The descent of vCoRoutineSchedule to a priority with a ready co-routine, or to the lowest. */
  function Descend(ready: seq<Ready>, top: nat): (t: nat)
    requires top < |ready|
    ensures t <= top
  {
    if ready[top].items == [] && top > 0 then Descend(ready, top - 1) else top
  }

  /** The rest of vCoRoutineSchedule. */
  function Dispatch(s: State): State
    requires Shape(s)
  {
    Call(s.(top := Descend(s.ready, s.top), last := s.tick, phase := Running))
  }

  function ReadyAt(s: State): Ready
    requires s.top < |s.ready|
  {
    s.ready[s.top]
  }

  /** The step of the walk along the list that the descent stopped at. */
  function Call(s: State): State
    requires s.top < |s.ready| && ReadyAt(s).pos <= |ReadyAt(s).items|
  {
    var list := ReadyAt(s);
    if list.items == [] then s.(ran := None)
    else
      var pos := Advance(|list.items|, list.pos);
      var co := list.items[pos - 1];
      s.(ready := s.ready[s.top := list.(pos := pos)], current := Some(co), ran := Some(co))
  }

  datatype Step =
    | CreateStep(co: Co, uxPriority: nat)
    | DelayStep(xTicksToDelay: nat, event: Option<nat>)
    | EventStep(e: nat)                  // an interrupt
    | StartStep                          // vCoRoutineSchedule is called
    | UnpendStep
    | ReadTicksStep(ticks: nat)          // the pending list is empty; the tick count is read
    | TickStep
    | ExpireStep
    | ExpiredStep                        // the inner loop ends
    | DispatchStep

  /** A delay is at least one tick: crDELAY and the queue functions do not call otherwise. */
  predicate Enabled(s: State, e: Step) {
    Shape(s) &&
    match e
    case CreateStep(co, _) => s.phase.Running? && co !in s.priority
    case DelayStep(d, _) => s.phase.Running? && CurrentIsReady(s) && 1 <= d < WORD
    case EventStep(ev) => EventList(s, ev) != []
    case StartStep => s.phase.Running? && s.current.Some?
    case UnpendStep => s.phase.Unpending? && s.pending != [] && s.pending[0].co in s.priority
    case ReadTicksStep(ticks) => s.phase.Unpending? && s.pending == [] && ticks < WORD
    case TickStep => s.phase.Ticking? && s.phase.passed > 0
    case ExpireStep => s.phase.Expiring? && s.delayed != [] && s.delayed[0].co in s.priority
      && s.delayed[0].value <= s.tick
    case ExpiredStep => s.phase.Expiring? && (s.delayed == [] || s.tick < s.delayed[0].value)
    case DispatchStep => s.phase.Ticking? && s.phase.passed == 0
  }

  function Next(s: State, e: Step): State
    requires Enabled(s, e)
  {
    match e
    case CreateStep(co, uxPriority) => Create(s, co, uxPriority)
    case DelayStep(xTicksToDelay, event) => AddToDelayed(s, xTicksToDelay, event)
    case EventStep(ev) => TakeEvent(s, ev)
    case StartStep => s.(phase := Unpending)
    case UnpendStep => Unpend(s)
    case ReadTicksStep(ticks) => s.(phase := Ticking(Wrap(ticks + WORD - s.last), ticks))
    case TickStep => Tick(s)
    case ExpireStep => Expire(s)
    case ExpiredStep => s.(phase := Ticking(s.phase.passed, s.phase.ticks))
    case DispatchStep => Dispatch(s)
  }

  predicate Legal(s: State, run: seq<Step>)
    decreases |run|
  {
    run == [] || (Enabled(s, run[0]) && Legal(Next(s, run[0]), run[1..]))
  }

  function After(s: State, run: seq<Step>): State
    requires Legal(s, run)
    decreases |run|
  {
    if run == [] then s else After(Next(s, run[0]), run[1..])
  }

  // ----- The invariant -----

  /** The ready lists hold each co-routine at its priority, once, and none above top. */
  ghost predicate ReadyOk(ready: seq<Ready>, priority: map<Co, nat>, top: nat) {
    && |ready| == MAX_PRIORITIES && top < MAX_PRIORITIES
    && (forall co :: co in priority ==> priority[co] < MAX_PRIORITIES)
    && forall p :: 0 <= p < MAX_PRIORITIES ==> ReadyListOk(ready[p], p, priority, top)
  }

  ghost predicate ReadyListOk(list: Ready, p: nat, priority: map<Co, nat>, top: nat) {
    && list.pos <= |list.items|
    && (forall co :: co in list.items ==> co in priority && priority[co] == p)
    && NoRepeat(list.items)
    && (list.items != [] ==> p <= top)
  }

  ghost predicate NoRepeat(items: seq<Co>) {
    forall i, j :: 0 <= i < j < |items| ==> items[i] != items[j]
  }

  ghost predicate IsReady(ready: seq<Ready>, priority: map<Co, nat>, co: Co) {
    co in priority && priority[co] < |ready| && co in ready[priority[co]].items
  }

  ghost predicate IsDelayed(delayed: seq<Item>, overflow: seq<Item>, co: Co) {
    Has(delayed, co) || Has(overflow, co)
  }

  /** The generic item of every co-routine is on exactly one list. */
  ghost predicate OneList(ready: seq<Ready>, priority: map<Co, nat>, delayed: seq<Item>, overflow: seq<Item>) {
    forall co :: co in priority ==>
      (IsReady(ready, priority, co) <==> !IsDelayed(delayed, overflow, co)) && !(Has(delayed, co) && Has(overflow, co))
  }

  /** The value of an item on a delay list is the time at which its delay is over, seen in the current turn of
      the tick count, or in the next. */
  ghost predicate DueOk(due: map<Co, nat>, item: Item, turn: nat) {
    item.co in due && due[item.co] == turn + item.value
  }

  /** What is due has not passed yet; while a tick is processed, it may be that tick. */
  ghost predicate TimesOk(delayed: seq<Item>, overflow: seq<Item>, due: map<Co, nat>, base: nat, tick: nat,
      expiring: bool) {
    && tick < WORD
    && (forall item :: item in delayed ==>
      DueOk(due, item, base) && tick <= item.value < WORD && (expiring || tick < item.value))
    && forall item :: item in overflow ==> DueOk(due, item, base + WORD) && item.value < tick
  }

  /** The count of the scheduler catches up with the tick count it has read. */
  ghost predicate ClockOk(tick: nat, last: nat, phase: Phase) {
    match phase
    case Running => last == tick
    case Unpending => last == tick
    case Ticking(passed, ticks) => tick < WORD && passed < WORD && Wrap(tick + passed) == ticks
    case Expiring(passed, ticks) => tick < WORD && passed < WORD && Wrap(tick + passed) == ticks
  }

  /** The event items: on one event list or the pending list, and then the co-routine is delayed too. */
  ghost predicate EventsOk(delayed: seq<Item>, overflow: seq<Item>, pending: seq<Item>, events: map<nat, seq<Item>>) {
    && Distinct(pending) && (forall item :: item in pending ==> IsDelayed(delayed, overflow, item.co))
    && (forall e :: e in events ==> EventListOk(delayed, overflow, pending, events[e]))
    && forall e, f :: e in events && f in events && e != f ==> Disjoint(events[e], events[f])
  }

  ghost predicate EventListOk(delayed: seq<Item>, overflow: seq<Item>, pending: seq<Item>, list: seq<Item>) {
    Ordered(list) && Disjoint(list, pending) && forall item :: item in list ==> IsDelayed(delayed, overflow, item.co)
  }

  ghost predicate Inv(s: State) {
    && ReadyOk(s.ready, s.priority, s.top) && OneList(s.ready, s.priority, s.delayed, s.overflow)
    && Ordered(s.delayed) && Ordered(s.overflow)
      && TimesOk(s.delayed, s.overflow, s.due, s.base, s.tick, s.phase.Expiring?)
    && ClockOk(s.tick, s.last, s.phase) && s.last < WORD && s.due.Keys <= s.priority.Keys
    && EventsOk(s.delayed, s.overflow, s.pending, s.events)
    && (s.current.Some? ==> s.current.value in s.priority)
  }

  // ----- Ready lists -----

  lemma AddToReadyOk(s: State, co: Co)
    requires ReadyOk(s.ready, s.priority, s.top) && co in s.priority && !IsReady(s.ready, s.priority, co)
    ensures var s' := AddToReady(s, co);
      && ReadyOk(s'.ready, s.priority, s'.top)
      && forall c :: c in s.priority ==>
        (IsReady(s'.ready, s.priority, c) <==> IsReady(s.ready, s.priority, c) || c == co)
  {
    var s', p := AddToReady(s, co), s.priority[co];
    var list := s.ready[p];
    assert ReadyListOk(list, p, s.priority, s.top);
    AddToListOk(list, p, s.priority, s.top, s'.top, co);
    forall q | 0 <= q < MAX_PRIORITIES ensures ReadyListOk(s'.ready[q], q, s.priority, s'.top) {
      assert ReadyListOk(s.ready[q], q, s.priority, s.top);
    }
  }

  lemma AddToListOk(list: Ready, p: nat, priority: map<Co, nat>, top: nat, top': nat, co: Co)
    requires ReadyListOk(list, p, priority, top) && co !in list.items && co in priority && priority[co] == p <= top'
    ensures ReadyListOk(Ready(InsertEnd(list.items, list.pos, co), InsertEndPos(list.pos)), p, priority, top')
    ensures forall c :: c in InsertEnd(list.items, list.pos, co) <==> c in list.items || c == co
  {
    InsertedAt(list.items, EndPlace(|list.items|, list.pos), co);
    InsertedDistinct(list.items, EndPlace(|list.items|, list.pos), co);
  }

  lemma InsertedDistinct(items: seq<Co>, k: nat, co: Co)
    requires k <= |items| && co !in items && NoRepeat(items)
    ensures NoRepeat(Inserted(items, k, co))
  {
    InsertedAt(items, k, co);
  }

  lemma RemoveReadyOk(ready: seq<Ready>, priority: map<Co, nat>, top: nat, co: Co)
    requires ReadyOk(ready, priority, top) && IsReady(ready, priority, co)
    ensures ReadyListOk(ready[priority[co]], priority[co], priority, top)
    ensures var ready' := ready[priority[co] := RemoveReady(ready[priority[co]], co)];
      && ReadyOk(ready', priority, top)
      && forall c :: c in priority ==> (IsReady(ready', priority, c) <==> IsReady(ready, priority, c) && c != co)
  {
    var p := priority[co];
    assert ReadyListOk(ready[p], p, priority, top);
    var ready' := ready[p := RemoveReady(ready[p], co)];
    WithoutDistinct(ready[p].items, IndexOf(ready[p].items, co));
    forall q | 0 <= q < MAX_PRIORITIES ensures ReadyListOk(ready'[q], q, priority, top) {
      assert ReadyListOk(ready[q], q, priority, top);
    }
  }

  lemma WithoutDistinct(items: seq<Co>, k: nat)
    requires k < |items| && NoRepeat(items)
    ensures var r := Without(items, k);
      && NoRepeat(r) && forall c :: c in r <==> c in items && c != items[k]
  {
    var r := Without(items, k);
    assert forall i :: 0 <= i < |r| ==> r[i] == items[if i < k then i else i + 1];
    assert items == items[..k] + [items[k]] + items[k + 1..];
  }

  /** The descent finds a highest ready priority, if any co-routine is ready. */
  lemma {:induction false} DescendFinds(ready: seq<Ready>, top: nat)
    requires top < |ready|
    ensures var t := Descend(ready, top);
      && (forall p :: t < p <= top ==> ready[p].items == [])
      && (ready[t].items == [] ==> t == 0)
  {
    if ready[top].items == [] && top > 0 { DescendFinds(ready, top - 1); }
  }

  /** vCoRoutineSchedule calls a ready co-routine of the highest priority that has one, the next in turn of that
      priority; or none, when none is ready. */
  lemma DispatchesHighest(s: State)
    requires Shape(s) && ReadyOk(s.ready, s.priority, s.top)
    ensures var s' := Dispatch(s);
      && ReadyOk(s'.ready, s.priority, s'.top)
      && (forall c :: IsReady(s'.ready, s.priority, c) <==> IsReady(s.ready, s.priority, c))
      && match s'.ran
         case None => forall co :: !IsReady(s.ready, s.priority, co)
         case Some(co) =>
           && IsReady(s.ready, s.priority, co) && s'.current == Some(co)
           && (forall c :: IsReady(s.ready, s.priority, c) ==> s.priority[c] <= s.priority[co])
           && co == Upcoming(s.ready[s.priority[co]].items, s.ready[s.priority[co]].pos)[0]
  {
    var t, s' := Descend(s.ready, s.top), Dispatch(s);
    DescendFinds(s.ready, s.top);
    forall p | 0 <= p < MAX_PRIORITIES ensures ReadyListOk(s'.ready[p], p, s.priority, s'.top) {
      assert ReadyListOk(s.ready[p], p, s.priority, s.top);
    }
    if s.ready[t].items != [] { AdvanceRotates(s.ready[t].items, s.ready[t].pos); }
  }

  // ----- Every step keeps the invariant -----

  lemma ShapeOk(s: State)
    requires s.tick < WORD && s.last < WORD && ReadyOk(s.ready, s.priority, s.top)
    ensures Shape(s)
  {
    forall p | 0 <= p < MAX_PRIORITIES ensures s.ready[p].pos <= |s.ready[p].items| {
      assert ReadyListOk(s.ready[p], p, s.priority, s.top);
    }
  }

  lemma PhaseKept(s: State, e: Step)
    requires Inv(s) && Enabled(s, e) && (e.StartStep? || e.ReadTicksStep? || e.ExpiredStep?)
    ensures Inv(Next(s, e))
  {
    if e.ExpiredStep? {
      ExpiredKept(s);
    } else if e.ReadTicksStep? {
      ClockDistance(s.tick, e.ticks);
    }
  }

  lemma ExpiredKept(s: State)
    requires Inv(s) && Enabled(s, ExpiredStep)
    ensures Inv(Next(s, ExpiredStep))
  {
    HeadIsFirst(s.delayed, s.tick);
    NewPhase(s, Ticking(s.phase.passed, s.phase.ticks));
  }

  lemma NewPhase(s: State, phase: Phase)
    requires Inv(s) && ClockOk(s.tick, s.last, phase)
    requires TimesOk(s.delayed, s.overflow, s.due, s.base, s.tick, phase.Expiring?)
    ensures Inv(s.(phase := phase))
  {
  }

  lemma ClockDistance(tick: nat, ticks: nat)
    requires tick < WORD && ticks < WORD
    ensures Wrap(tick + Wrap(ticks + WORD - tick)) == ticks
  {
  }

  lemma HeadIsFirst(list: seq<Item>, tick: nat)
    requires Ordered(list) && (list == [] || tick < list[0].value)
    ensures forall item :: item in list ==> tick < item.value
  {
    forall item | item in list ensures tick < item.value {
      var i :| 0 <= i < |list| && list[i] == item;
      assert list[0].value <= list[i].value;
    }
  }

  lemma DispatchKept(s: State)
    requires Inv(s) && Enabled(s, DispatchStep)
    ensures Inv(Dispatch(s))
  {
    DispatchesHighest(s);
    SameReady(s.ready, Dispatch(s).ready, s.priority, s.delayed, s.overflow);
  }

  lemma SameReady(ready: seq<Ready>, ready': seq<Ready>, priority: map<Co, nat>, delayed: seq<Item>,
      overflow: seq<Item>)
    requires OneList(ready, priority, delayed, overflow)
    requires forall co :: IsReady(ready', priority, co) <==> IsReady(ready, priority, co)
    ensures OneList(ready', priority, delayed, overflow)
  {
  }

  lemma TickKept(s: State)
    requires Inv(s) && Enabled(s, TickStep)
    ensures Inv(Tick(s))
    ensures s.tick == WORD - 1 ==> s.delayed == []
    ensures Now(Tick(s)) == Now(s) + 1
  {
    HasItem(s.delayed);
    TickTimes(s);
  }

  lemma HasItem(list: seq<Item>)
    ensures list != [] ==> exists item :: item in list
  {
    if list != [] { assert list[0] in list; }
  }

  lemma TickTimes(s: State)
    requires TimesOk(s.delayed, s.overflow, s.due, s.base, s.tick, false) && ClockOk(s.tick, s.last, s.phase)
    requires s.phase.Ticking? && s.phase.passed > 0 && (s.tick == WORD - 1 ==> s.delayed == [])
    ensures var s' := Tick(s);
      TimesOk(s'.delayed, s'.overflow, s'.due, s'.base, s'.tick, true) && ClockOk(s'.tick, s'.last, s'.phase)
  {
  }

  lemma CreateKept(s: State, co: Co, uxPriority: nat)
    requires Inv(s) && Enabled(s, CreateStep(co, uxPriority))
    ensures Inv(Create(s, co, uxPriority))
  {
    var p := if uxPriority >= MAX_PRIORITIES then MAX_PRIORITIES - 1 else uxPriority;
    var s1 := s.(priority := s.priority[co := p], current := if s.current == None then Some(co) else s.current);
    forall q | 0 <= q < MAX_PRIORITIES ensures ReadyListOk(s.ready[q], q, s1.priority, s.top) {
      assert ReadyListOk(s.ready[q], q, s.priority, s.top);
    }
    AddToReadyOk(s1, co);
    assert !IsDelayed(s.delayed, s.overflow, co);
    forall c | c in s.priority ensures IsReady(s.ready, s1.priority, c) <==> IsReady(s.ready, s.priority, c) {}
  }

  lemma EventKept(s: State, e: nat)
    requires Inv(s) && Enabled(s, EventStep(e))
    ensures Inv(TakeEvent(s, e))
  {
    EventTaken(s.delayed, s.overflow, s.pending, s.events, e);
  }

  lemma EventTaken(delayed: seq<Item>, overflow: seq<Item>, pending: seq<Item>, events: map<nat, seq<Item>>, e: nat)
    requires EventsOk(delayed, overflow, pending, events) && e in events && events[e] != []
    ensures EventsOk(delayed, overflow, pending + [events[e][0]], events[e := events[e][1..]])
  {
    var list, events', pending' := events[e], events[e := events[e][1..]], pending + [events[e][0]];
    assert EventListOk(delayed, overflow, pending, list);
    assert list == [list[0]] + list[1..];
    forall f | f in events' ensures EventListOk(delayed, overflow, pending', events'[f]) {
      assert EventListOk(delayed, overflow, pending, events[f]);
      if f != e { assert Disjoint(events[f], events[e]); }
    }
    HeadLeavesDisjoint(events, e);
  }

  lemma HeadLeavesDisjoint(events: map<nat, seq<Item>>, e: nat)
    requires forall f, g :: f in events && g in events && f != g ==> Disjoint(events[f], events[g])
    requires e in events && events[e] != []
    ensures var events' := events[e := events[e][1..]];
      forall f, g :: f in events' && g in events' && f != g ==> Disjoint(events'[f], events'[g])
  {
    var list, events' := events[e], events[e := events[e][1..]];
    assert list == [list[0]] + list[1..];
    forall f, g | f in events' && g in events' && f != g ensures Disjoint(events'[f], events'[g]) {
      assert Disjoint(events[f], events[g]);
    }
  }

  /** A co-routine whose generic item goes off the delay lists must not be left on an event list. */
  lemma EventsWithout(
      delayed: seq<Item>, overflow: seq<Item>, pending: seq<Item>, events: map<nat, seq<Item>>,
      delayed': seq<Item>, overflow': seq<Item>, pending': seq<Item>, events': map<nat, seq<Item>>, co: Co)
    requires EventsOk(delayed, overflow, pending, events)
    requires forall c :: c != co && IsDelayed(delayed, overflow, c) ==> IsDelayed(delayed', overflow', c)
    requires Distinct(pending') && forall x :: x in pending' ==> x in pending && x.co != co
    requires forall e :: e in events' ==> e in events && Part(events'[e], events[e], co)
    ensures EventsOk(delayed', overflow', pending', events')
  {
    forall f | f in events' ensures EventListOk(delayed', overflow', pending', events'[f]) {
      assert EventListOk(delayed, overflow, pending, events[f]) && Part(events'[f], events[f], co);
    }
    forall f, g | f in events' && g in events' && f != g ensures Disjoint(events'[f], events'[g]) {
      assert Disjoint(events[f], events[g]) && Part(events'[f], events[f], co) && Part(events'[g], events[g], co);
    }
  }

  ghost predicate Part(list': seq<Item>, list: seq<Item>, co: Co) {
    Ordered(list') && forall x :: x in list' ==> x in list && x.co != co
  }

  /** A ready co-routine joins an event list as it is delayed. */
  lemma EventsWith(
      delayed: seq<Item>, overflow: seq<Item>, pending: seq<Item>, events: map<nat, seq<Item>>,
      delayed': seq<Item>, overflow': seq<Item>, e: nat, item: Item)
    requires EventsOk(delayed, overflow, pending, events) && !IsDelayed(delayed, overflow, item.co)
    requires forall c :: IsDelayed(delayed', overflow', c) <==> IsDelayed(delayed, overflow, c) || c == item.co
    ensures EventsOk(delayed', overflow', pending, events)
    ensures EventsOk(delayed', overflow', pending, AddEvent(events, e, item))
  {
    var list := if e in events then events[e] else [];
    var events' := events[e := Insert(list, item)];
    assert EventListOk(delayed, overflow, pending, list);
    InsertOrdered(list, item);
    forall f | f in events ensures EventListOk(delayed', overflow', pending, events[f]) {
      assert EventListOk(delayed, overflow, pending, events[f]);
    }
    forall f, g | f in events' && g in events' && f != g ensures Disjoint(events'[f], events'[g]) {
      if f in events { assert EventListOk(delayed, overflow, pending, events[f]); }
      if g in events { assert EventListOk(delayed, overflow, pending, events[g]); }
      if f in events && g in events { assert Disjoint(events[f], events[g]); }
    }
  }

  /** A delayed co-routine leaves the delay lists, its event item every other list, and becomes ready. */
  lemma BackToReady(s: State, s1: State, co: Co)
    requires Inv(s) && co in s.priority && IsDelayed(s.delayed, s.overflow, co)
    requires s1 == s.(delayed := s1.delayed, overflow := s1.overflow, pending := s1.pending, events := s1.events,
      log := s1.log)
    requires Ordered(s1.delayed) && Ordered(s1.overflow)
    requires forall x :: x in s1.delayed <==> x in s.delayed && x.co != co
    requires forall x :: x in s1.overflow <==> x in s.overflow && x.co != co
    requires EventsOk(s1.delayed, s1.overflow, s1.pending, s1.events)
    ensures Shape(s1) && Inv(AddToReady(s1, co))
  {
    ShapeOk(s1);
    AddToReadyOk(s1, co);
    OneListBack(s, s1, AddToReady(s1, co).ready, co);
    FewerTimes(s.delayed, s.overflow, s1.delayed, s1.overflow, s.due, s.base, s.tick, s.phase.Expiring?);
  }

  lemma FewerTimes(delayed: seq<Item>, overflow: seq<Item>, delayed': seq<Item>, overflow': seq<Item>,
                   due: map<Co, nat>, base: nat, tick: nat, expiring: bool)
    requires TimesOk(delayed, overflow, due, base, tick, expiring)
    requires (forall x :: x in delayed' ==> x in delayed) && forall x :: x in overflow' ==> x in overflow
    ensures TimesOk(delayed', overflow', due, base, tick, expiring)
  {
  }

  lemma OneListBack(s: State, s1: State, ready: seq<Ready>, co: Co)
    requires OneList(s.ready, s.priority, s.delayed, s.overflow) && IsDelayed(s.delayed, s.overflow, co)
    requires forall x :: x in s1.delayed <==> x in s.delayed && x.co != co
    requires forall x :: x in s1.overflow <==> x in s.overflow && x.co != co
    requires forall c :: c in s.priority ==>
      (IsReady(ready, s.priority, c) <==> IsReady(s.ready, s.priority, c) || c == co)
    ensures OneList(ready, s.priority, s1.delayed, s1.overflow)
  {
    forall c ensures Has(s1.delayed, c) <==> Has(s.delayed, c) && c != co { LeftHas(s.delayed, s1.delayed, co, c); }
    forall c ensures Has(s1.overflow, c) <==> Has(s.overflow, c) && c != co { LeftHas(s.overflow, s1.overflow, co, c); }
  }

  lemma LeftHas(was: seq<Item>, now: seq<Item>, co: Co, c: Co)
    requires forall x :: x in now <==> x in was && x.co != co
    ensures Has(now, c) <==> Has(was, c) && c != co
  {
  }

  lemma UnpendKept(s: State)
    requires Inv(s) && Enabled(s, UnpendStep)
    ensures Inv(Unpend(s)) && IsDelayed(s.delayed, s.overflow, s.pending[0].co)
  {
    var co := s.pending[0].co;
    var s1 := s.(pending := s.pending[1..], delayed := Remove(s.delayed, co), overflow := Remove(s.overflow, co),
                 log := s.log + [Readied(co, Now(s))]);
    RemoveOrdered(s.delayed, co);
    RemoveOrdered(s.overflow, co);
    UnpendEvents(s, s1, co);
    BackToReady(s, s1, co);
  }

  lemma UnpendEvents(s: State, s1: State, co: Co)
    requires EventsOk(s.delayed, s.overflow, s.pending, s.events) && s.pending != [] && co == s.pending[0].co
    requires forall x :: x in s1.delayed <==> x in s.delayed && x.co != co
    requires forall x :: x in s1.overflow <==> x in s.overflow && x.co != co
    requires s1.pending == s.pending[1..] && s1.events == s.events
    ensures EventsOk(s1.delayed, s1.overflow, s1.pending, s1.events) && IsDelayed(s.delayed, s.overflow, co)
  {
    assert s.pending == [s.pending[0]] + s.pending[1..];
    forall e | e in s.events ensures Part(s.events[e], s.events[e], co) {
      assert EventListOk(s.delayed, s.overflow, s.pending, s.events[e]);
    }
    forall c | c != co && IsDelayed(s.delayed, s.overflow, c) ensures IsDelayed(s1.delayed, s1.overflow, c) {
      LeftHas(s.delayed, s1.delayed, co, c);
      LeftHas(s.overflow, s1.overflow, co, c);
    }
    EventsWithout(s.delayed, s.overflow, s.pending, s.events, s1.delayed, s1.overflow, s1.pending, s1.events, co);
  }

  lemma ExpireKept(s: State)
    requires Inv(s) && Enabled(s, ExpireStep)
    ensures Inv(Expire(s))
  {
    HeadIsDue(s);
    ExpiredLists(s);
    BackToReady(s, Expired(s), s.delayed[0].co);
  }

  lemma ExpiredLists(s: State)
    requires Ordered(s.delayed) && s.delayed != [] && !Has(s.overflow, s.delayed[0].co)
    requires EventsOk(s.delayed, s.overflow, s.pending, s.events)
    ensures var s1, co := Expired(s), s.delayed[0].co;
      && Ordered(s1.delayed) && (forall x :: x in s1.delayed <==> x in s.delayed && x.co != co)
      && EventsOk(s1.delayed, s1.overflow, s1.pending, s1.events)
  {
    RemoveHead(s.delayed);
    RemoveOrdered(s.delayed, s.delayed[0].co);
    ExpireEvents(s, Expired(s), s.delayed[0].co);
  }

  /** The delay that ends is one that is over at this very tick. */
  lemma HeadIsDue(s: State)
    requires TimesOk(s.delayed, s.overflow, s.due, s.base, s.tick, true) && s.delayed != []
      && s.delayed[0].value <= s.tick
    requires OneList(s.ready, s.priority, s.delayed, s.overflow) && s.due.Keys <= s.priority.Keys
    ensures var co := s.delayed[0].co; Has(s.delayed, co) && !Has(s.overflow, co) && co in s.due && s.due[co] == Now(s)
  {
    assert s.delayed[0] in s.delayed;
  }

  lemma ExpireEvents(s: State, s1: State, co: Co)
    requires EventsOk(s.delayed, s.overflow, s.pending, s.events) && s1.overflow == s.overflow && !Has(s.overflow, co)
    requires forall x :: x in s1.delayed <==> x in s.delayed && x.co != co
    requires s1.pending == Remove(s.pending, co)
    requires s1.events == map e | e in s.events :: Remove(s.events[e], co)
    ensures EventsOk(s1.delayed, s1.overflow, s1.pending, s1.events)
  {
    RemoveMembers(s.pending, co);
    forall e | e in s1.events ensures Part(s1.events[e], s.events[e], co) {
      assert EventListOk(s.delayed, s.overflow, s.pending, s.events[e]);
      RemoveOrdered(s.events[e], co);
    }
    forall c | c != co && IsDelayed(s.delayed, s.overflow, c) ensures IsDelayed(s1.delayed, s1.overflow, c) {
      LeftHas(s.delayed, s1.delayed, co, c);
    }
    EventsWithout(s.delayed, s.overflow, s.pending, s.events, s1.delayed, s1.overflow, s1.pending, s1.events, co);
  }

  /** vCoRoutineAddToDelayedList: the item goes on the list of the turn of the tick count in which the delay ends. */
  lemma DelayKept(s: State, d: nat, event: Option<nat>)
    requires Inv(s) && Enabled(s, DelayStep(d, event))
    ensures Inv(AddToDelayed(s, d, event))
  {
    DelayMoves(s, d, event);
    DelayKeepsTimes(s, d, event);
    DelayKeepsLists(s, d, event);
    DelayKeepsEvents(s, d, event);
  }

  lemma DelayKeepsTimes(s: State, d: nat, event: Option<nat>)
    requires Inv(s) && Enabled(s, DelayStep(d, event))
    ensures var s' := AddToDelayed(s, d, event); TimesOk(s'.delayed, s'.overflow, s'.due, s.base, s.tick, false)
  {
    CurrentNotDelayed(s);
    DelayKeptTimes(s, d, event);
  }

  lemma DelayKeepsLists(s: State, d: nat, event: Option<nat>)
    requires Inv(s) && Enabled(s, DelayStep(d, event))
    ensures var s' := AddToDelayed(s, d, event);
      && ReadyOk(s'.ready, s.priority, s.top) && Ordered(s'.delayed) && Ordered(s'.overflow)
      && OneList(s'.ready, s.priority, s'.delayed, s'.overflow)
  {
    CurrentNotDelayed(s);
    RemoveReadyOk(s.ready, s.priority, s.top, s.current.value);
    DelayMembers(s, d, event);
    DelayKeptLists(s, d, event);
  }

  lemma DelayKeepsEvents(s: State, d: nat, event: Option<nat>)
    requires Inv(s) && Enabled(s, DelayStep(d, event))
    ensures var s' := AddToDelayed(s, d, event); EventsOk(s'.delayed, s'.overflow, s.pending, s'.events)
  {
    CurrentNotDelayed(s);
    DelayMembers(s, d, event);
    DelayKeptEvents(s, AddToDelayed(s, d, event), event,
      Item(s.current.value, MAX_PRIORITIES - s.priority[s.current.value]));
  }

  /** The current co-routine, and nobody else, becomes delayed. */
  lemma DelayMoves(s: State, d: nat, event: Option<nat>)
    requires Inv(s) && Enabled(s, DelayStep(d, event))
    ensures var s', co := AddToDelayed(s, d, event), s.current.value;
      && s'.due == s.due[co := Now(s) + d] && !IsDelayed(s.delayed, s.overflow, co)
      && forall c :: IsDelayed(s'.delayed, s'.overflow, c) <==> IsDelayed(s.delayed, s.overflow, c) || c == co
  {
    CurrentNotDelayed(s);
    DelayMembers(s, d, event);
  }

  lemma CurrentNotDelayed(s: State)
    requires Shape(s) && CurrentIsReady(s) && OneList(s.ready, s.priority, s.delayed, s.overflow)
    ensures !IsDelayed(s.delayed, s.overflow, s.current.value)
  {
    assert IsReady(s.ready, s.priority, s.current.value);
  }

  lemma DelayMembers(s: State, d: nat, event: Option<nat>)
    requires Shape(s) && CurrentIsReady(s) && 1 <= d < WORD && !IsDelayed(s.delayed, s.overflow, s.current.value)
    requires Ordered(s.delayed) && Ordered(s.overflow)
    ensures var s', co := AddToDelayed(s, d, event), s.current.value;
      && Ordered(s'.delayed) && Ordered(s'.overflow)
      && forall c :: IsDelayed(s'.delayed, s'.overflow, c) <==> IsDelayed(s.delayed, s.overflow, c) || c == co
  {
    var item := Item(s.current.value, Wrap(s.tick + d));
    DelayLists(s.delayed, s.overflow, item, item.value < s.tick);
  }

  /** The delay lists once the item is on one of them. */
  function Delayed(list: seq<Item>, item: Item, here: bool): seq<Item> {
    if here then Insert(list, item) else list
  }

  lemma DelayReady(s: State, co: Co, delayed: seq<Item>, overflow: seq<Item>)
    requires ReadyOk(s.ready, s.priority, s.top) && OneList(s.ready, s.priority, s.delayed, s.overflow)
    requires IsReady(s.ready, s.priority, co)
    requires forall c :: IsDelayed(delayed, overflow, c) <==> IsDelayed(s.delayed, s.overflow, c) || c == co
    requires forall c :: Has(delayed, c) && Has(overflow, c) ==> Has(s.delayed, c) && Has(s.overflow, c)
    ensures ReadyListOk(s.ready[s.priority[co]], s.priority[co], s.priority, s.top)
    ensures var ready := s.ready[s.priority[co] := RemoveReady(s.ready[s.priority[co]], co)];
      ReadyOk(ready, s.priority, s.top) && OneList(ready, s.priority, delayed, overflow)
  {
    RemoveReadyOk(s.ready, s.priority, s.top, co);
    OneListDelayed(s, s.ready[s.priority[co] := RemoveReady(s.ready[s.priority[co]], co)], delayed, overflow, co);
  }

  lemma DelayKeptTimes(s: State, d: nat, event: Option<nat>)
    requires Shape(s) && CurrentIsReady(s) && 1 <= d < WORD && !IsDelayed(s.delayed, s.overflow, s.current.value)
    requires TimesOk(s.delayed, s.overflow, s.due, s.base, s.tick, false)
    ensures var s' := AddToDelayed(s, d, event); TimesOk(s'.delayed, s'.overflow, s'.due, s.base, s.tick, false)
  {
    DelayTimes(s, Item(s.current.value, Wrap(s.tick + d)), d);
  }

  lemma DelayKeptLists(s: State, d: nat, event: Option<nat>)
    requires Shape(s) && CurrentIsReady(s) && 1 <= d < WORD && !IsDelayed(s.delayed, s.overflow, s.current.value)
    requires Ordered(s.delayed) && Ordered(s.overflow) && ReadyOk(s.ready, s.priority, s.top)
    requires OneList(s.ready, s.priority, s.delayed, s.overflow)
    ensures var s' := AddToDelayed(s, d, event);
      OneList(s'.ready, s.priority, s'.delayed, s'.overflow)
  {
    var item := Item(s.current.value, Wrap(s.tick + d));
    var delayed, overflow := Delayed(s.delayed, item, !(item.value < s.tick)),
      Delayed(s.overflow, item, item.value < s.tick);
    var s', list := AddToDelayed(s, d, event), s.ready[s.priority[item.co]];
    DelayLists(s.delayed, s.overflow, item, item.value < s.tick);
    assert s'.delayed == delayed && s'.overflow == overflow;
    assert s'.ready == s.ready[s.priority[item.co] := RemoveReady(list, item.co)];
    DelayReady(s, item.co, s'.delayed, s'.overflow);
  }

  lemma DelayKeptEvents(s: State, s': State, event: Option<nat>, item: Item)
    requires EventsOk(s.delayed, s.overflow, s.pending, s.events) && !IsDelayed(s.delayed, s.overflow, item.co)
    requires forall c :: IsDelayed(s'.delayed, s'.overflow, c) <==> IsDelayed(s.delayed, s.overflow, c) || c == item.co
    requires s'.events == Awaiting(s.events, event, item)
    ensures EventsOk(s'.delayed, s'.overflow, s.pending, s'.events)
  {
    EventsWith(s.delayed, s.overflow, s.pending, s.events, s'.delayed, s'.overflow,
      if event.Some? then event.value else 0, item);
  }

  /** The wake time, and the test that decides between the lists. */
  lemma WakeTime(tick: nat, d: nat)
    requires tick < WORD && 1 <= d < WORD
    ensures var wake := Wrap(tick + d);
      if wake < tick then tick + d == WORD + wake else tick < wake == tick + d
  {
  }

  lemma InsertHas(list: seq<Item>, item: Item)
    requires Ordered(list) && !Has(list, item.co)
    ensures Ordered(Insert(list, item))
    ensures forall c :: Has(Insert(list, item), c) <==> Has(list, c) || c == item.co
  {
    InsertOrdered(list, item);
    forall c ensures Has(Insert(list, item), c) <==> Has(list, c) || c == item.co { assert item in Insert(list, item); }
  }

  lemma DelayLists(delayed: seq<Item>, overflow: seq<Item>, item: Item, over: bool)
    requires Ordered(delayed) && Ordered(overflow) && !IsDelayed(delayed, overflow, item.co)
    ensures var delayed', overflow' := Delayed(delayed, item, !over), Delayed(overflow, item, over);
      && Ordered(delayed') && Ordered(overflow')
      && (forall c :: IsDelayed(delayed', overflow', c) <==> IsDelayed(delayed, overflow, c) || c == item.co)
      && forall c :: Has(delayed', c) && Has(overflow', c) ==> Has(delayed, c) && Has(overflow, c)
  {
    InsertHas(delayed, item);
    InsertHas(overflow, item);
  }

  lemma DelayTimes(s: State, item: Item, d: nat)
    requires !IsDelayed(s.delayed, s.overflow, item.co) && s.tick < WORD && 1 <= d < WORD
      && item.value == Wrap(s.tick + d)
    requires TimesOk(s.delayed, s.overflow, s.due, s.base, s.tick, false)
    ensures TimesOk(Delayed(s.delayed, item, !(item.value < s.tick)), Delayed(s.overflow, item, item.value < s.tick),
      s.due[item.co := Now(s) + d], s.base, s.tick, false)
  {
    InsertMembers(s.delayed, item);
    InsertMembers(s.overflow, item);
    WakeTime(s.tick, d);
    forall x | x in s.delayed || x in s.overflow ensures x.co != item.co {}
  }

  lemma OneListDelayed(s: State, ready: seq<Ready>, delayed: seq<Item>, overflow: seq<Item>, co: Co)
    requires OneList(s.ready, s.priority, s.delayed, s.overflow) && co in s.priority
    requires forall c :: c in s.priority ==>
      (IsReady(ready, s.priority, c) <==> IsReady(s.ready, s.priority, c) && c != co)
    requires forall c :: IsDelayed(delayed, overflow, c) <==> IsDelayed(s.delayed, s.overflow, c) || c == co
    requires forall c :: Has(delayed, c) && Has(overflow, c) ==> Has(s.delayed, c) && Has(s.overflow, c)
    ensures OneList(ready, s.priority, delayed, overflow)
  {
  }

  lemma InvKept(s: State, e: Step)
    requires Inv(s) && Enabled(s, e)
    ensures Inv(Next(s, e))
  {
    match e
    case CreateStep(co, uxPriority) => CreateKept(s, co, uxPriority);
    case DelayStep(d, event) => DelayKept(s, d, event);
    case EventStep(ev) => EventKept(s, ev);
    case StartStep => PhaseKept(s, e);
    case UnpendStep => UnpendKept(s);
    case ReadTicksStep(ticks) => PhaseKept(s, e);
    case TickStep => TickKept(s);
    case ExpireStep => ExpireKept(s);
    case ExpiredStep => PhaseKept(s, e);
    case DispatchStep => DispatchKept(s);
  }

  lemma InitialOk()
    ensures Inv(Initial)
  {
  }

  lemma {:induction false} InvRun(s: State, run: seq<Step>)
    requires Inv(s) && Legal(s, run)
    ensures Inv(After(s, run))
    decreases |run|
  {
    if run != [] {
      InvKept(s, run[0]);
      InvRun(Next(s, run[0]), run[1..]);
    }
  }

  // ----- Main results -----

  /** In every reachable state: each co-routine's generic item is on exactly one ready or delay list, its event item is
      on an event list or the pending list only while it is delayed, and uxTopCoRoutineReadyPriority bounds every
      priority with a ready co-routine. */
  lemma ListsStayConsistent(run: seq<Step>, co: Co)
    requires Legal(Initial, run) && co in After(Initial, run).priority
    ensures var s := After(Initial, run);
      && (IsReady(s.ready, s.priority, co) <==> !IsDelayed(s.delayed, s.overflow, co))
      && !(Has(s.delayed, co) && Has(s.overflow, co))
      && (Has(s.pending, co) ==> IsDelayed(s.delayed, s.overflow, co))
      && (forall e :: e in s.events && Has(s.events[e], co) ==>
            IsDelayed(s.delayed, s.overflow, co) && !Has(s.pending, co)
            && forall f :: f in s.events && f != e ==> !Has(s.events[f], co))
      && (IsReady(s.ready, s.priority, co) ==> s.priority[co] <= s.top)
  {
    InvRun(Initial, run);
    var s := After(Initial, run);
    if IsReady(s.ready, s.priority, co) {
      assert ReadyListOk(s.ready[s.priority[co]], s.priority[co], s.priority, s.top);
    }
    forall e | e in s.events && Has(s.events[e], co)
      ensures IsDelayed(s.delayed, s.overflow, co) && !Has(s.pending, co)
      ensures forall f :: f in s.events && f != e ==> !Has(s.events[f], co)
    {
      assert EventListOk(s.delayed, s.overflow, s.pending, s.events[e]);
      forall f | f in s.events && f != e ensures !Has(s.events[f], co) { assert Disjoint(s.events[e], s.events[f]); }
    }
  }

  /** Whenever the tick count wraps, the list that is retired is empty. */
  lemma RetiredListIsEmpty(run: seq<Step>)
    requires Legal(Initial, run) && Enabled(After(Initial, run), TickStep)
    ensures Next(After(Initial, run), TickStep).tick == 0 ==> After(Initial, run).delayed == []
  {
    InvRun(Initial, run);
    TickKept(After(Initial, run));
  }

  /** The first time since the log was n long that co became ready. */
  function FirstWake(log: seq<Wake>, n: nat, co: Co): Option<Wake>
    requires n <= |log|
    decreases |log| - n
  {
    if n == |log| then None else if log[n].co == co then Some(log[n]) else FirstWake(log, n + 1, co)
  }

  /** A co-routine that has to wait until D either still waits, and D has not passed; or it became ready first by
      its delay being over, exactly at D; or by an event, no later than that. */
  ghost predicate WaitsUntil(s: State, n: nat, co: Co, D: nat)
    requires n <= |s.log|
  {
    match FirstWake(s.log, n, co)
    case None => StillWaits(s, co, D)
    case Some(TimedOut(_, at)) => at == D
    case Some(Readied(_, at)) => at <= D
  }

  ghost predicate StillWaits(s: State, co: Co, D: nat) {
    && IsDelayed(s.delayed, s.overflow, co) && co in s.due && s.due[co] == D
    && if s.phase.Expiring? then Now(s) <= D else Now(s) < D
  }

  lemma {:induction false} FirstWakeGrows(log: seq<Wake>, more: seq<Wake>, n: nat, co: Co)
    requires n <= |log|
    ensures FirstWake(log + more, n, co) ==
      if FirstWake(log, n, co).Some? then FirstWake(log, n, co) else FirstWake(log + more, |log|, co)
    decreases |log| - n
  {
    if n < |log| { FirstWakeGrows(log, more, n + 1, co); }
  }

  /** Where an item is says that its time has not passed. */
  lemma NotPassed(s: State, co: Co)
    requires Inv(s) && IsDelayed(s.delayed, s.overflow, co)
    ensures co in s.due && if s.phase.Expiring? then Now(s) <= s.due[co] else Now(s) < s.due[co]
  {
    var item :| item in (s.delayed + s.overflow) && item.co == co;
    assert DueOk(s.due, item, s.base) || DueOk(s.due, item, s.base + WORD);
  }

  /** What a step logs of a waiting co-routine; unless it does, it still waits. */
  lemma StillWaitsKept(s: State, e: Step, co: Co, D: nat)
    requires Inv(s) && Enabled(s, e) && StillWaits(s, co, D)
    ensures var s' := Next(s, e);
      if |s'.log| > |s.log| && s'.log[|s.log|].co == co then
        s'.log[|s.log|] == TimedOut(co, D) || (s'.log[|s.log|].Readied? && s'.log[|s.log|].at <= D)
      else StillWaits(s', co, D)
  {
    if e.ExpireStep? {
      WaitsThroughExpiry(s, co, D);
    } else if e.UnpendStep? {
      WaitsThroughUnpending(s, co, D);
    } else if e.DelayStep? {
      WaitsThroughDelay(s, e.xTicksToDelay, e.event, co, D);
    } else {
      WaitsOn(s, e, co, D);
    }
  }

  lemma WaitsOn(s: State, e: Step, co: Co, D: nat)
    requires Inv(s) && Enabled(s, e) && StillWaits(s, co, D) && !e.ExpireStep? && !e.UnpendStep? && !e.DelayStep?
    ensures StillWaits(Next(s, e), co, D) && Next(s, e).log == s.log
  {
    InvKept(s, e);
    SameDelays(s, e, co);
    NotPassed(Next(s, e), co);
  }

  lemma SameDelays(s: State, e: Step, co: Co)
    requires Enabled(s, e) && !e.ExpireStep? && !e.UnpendStep? && !e.DelayStep?
    ensures var s' := Next(s, e);
      && s'.due == s.due && s'.log == s.log
      && (IsDelayed(s'.delayed, s'.overflow, co) <==> IsDelayed(s.delayed, s.overflow, co))
  {
  }

  lemma WaitsThroughDelay(s: State, d: nat, event: Option<nat>, co: Co, D: nat)
    requires Inv(s) && Enabled(s, DelayStep(d, event)) && StillWaits(s, co, D)
    ensures StillWaits(AddToDelayed(s, d, event), co, D) && AddToDelayed(s, d, event).log == s.log
  {
    DelayKept(s, d, event);
    DelayMoves(s, d, event);
    NotPassed(AddToDelayed(s, d, event), co);
  }

  lemma WaitsThroughExpiry(s: State, co: Co, D: nat)
    requires Inv(s) && Enabled(s, ExpireStep) && StillWaits(s, co, D)
    ensures var s' := Expire(s);
      s'.log == s.log + [TimedOut(s.delayed[0].co, Now(s))] && if s.delayed[0].co == co then Now(s) == D
        else StillWaits(s', co, D)
  {
    HeadIsDue(s);
    ExpireKept(s);
    if s.delayed[0].co != co { StaysBehind(s, s.delayed[0].co, co); NotPassed(Expire(s), co); }
  }

  lemma WaitsThroughUnpending(s: State, co: Co, D: nat)
    requires Inv(s) && Enabled(s, UnpendStep) && StillWaits(s, co, D)
    ensures var s' := Unpend(s);
      s'.log == s.log + [Readied(s.pending[0].co, Now(s))] && (s.pending[0].co != co ==> StillWaits(s', co, D))
  {
    UnpendKept(s);
    if s.pending[0].co != co { StaysBehind(s, s.pending[0].co, co); NotPassed(Unpend(s), co); }
  }

  lemma StaysBehind(s: State, other: Co, co: Co)
    requires Inv(s) && IsDelayed(s.delayed, s.overflow, co) && co != other
    ensures IsDelayed(Remove(s.delayed, other), Remove(s.overflow, other), co)
    ensures Has(s.overflow, other) || IsDelayed(Remove(s.delayed, other), s.overflow, co)
    ensures s.delayed != [] && s.delayed[0].co == other ==> Remove(s.delayed, other) == s.delayed[1..]
  {
    RemoveOrdered(s.delayed, other);
    RemoveOrdered(s.overflow, other);
    LeftHas(s.delayed, Remove(s.delayed, other), other, co);
    LeftHas(s.overflow, Remove(s.overflow, other), other, co);
    if s.delayed != [] { RemoveHead(s.delayed); }
  }

  lemma WaitKept(s: State, e: Step, n: nat, co: Co, D: nat)
    requires Inv(s) && Enabled(s, e) && n <= |s.log| && WaitsUntil(s, n, co, D)
    ensures |s.log| <= |Next(s, e).log| && WaitsUntil(Next(s, e), n, co, D)
  {
    LogGrows(s, e);
    var log, more := s.log, Next(s, e).log[|s.log|..];
    FirstWakeGrows(log, more, n, co);
    if FirstWake(log, n, co).None? { WaitGoesOn(s, e, n, co, D); }
  }

  lemma WaitGoesOn(s: State, e: Step, n: nat, co: Co, D: nat)
    requires Inv(s) && Enabled(s, e) && n <= |s.log| <= |Next(s, e).log| && StillWaits(s, co, D)
    requires FirstWake(Next(s, e).log, n, co) == FirstWake(Next(s, e).log, |s.log|, co)
    ensures WaitsUntil(Next(s, e), n, co, D)
  {
    StillWaitsKept(s, e, co, D);
    AtMostOneWake(s, e);
    assert |Next(s, e).log| > |s.log| ==> FirstWake(Next(s, e).log, |s.log| + 1, co).None?;
  }

  lemma AtMostOneWake(s: State, e: Step)
    requires Enabled(s, e)
    ensures |s.log| <= |Next(s, e).log| <= |s.log| + 1 && Next(s, e).log[..|s.log|] == s.log
  {
  }

  lemma LogGrows(s: State, e: Step)
    requires Enabled(s, e)
    ensures |s.log| <= |Next(s, e).log| && Next(s, e).log == s.log + Next(s, e).log[|s.log|..]
  {
    AtMostOneWake(s, e);
  }

  lemma {:induction false} WaitRun(s: State, run: seq<Step>, n: nat, co: Co, D: nat)
    requires Inv(s) && Legal(s, run) && n <= |s.log| && WaitsUntil(s, n, co, D)
    ensures n <= |After(s, run).log| && WaitsUntil(After(s, run), n, co, D)
    decreases |run|
  {
    if run != [] {
      WaitKept(s, run[0], n, co, D);
      InvKept(s, run[0]);
      WaitRun(Next(s, run[0]), run[1..], n, co, D);
    }
  }

  /** Exact wake time. A co-routine that delays itself by d, at any time T, waits until T + d, wherever the tick count
      wraps in between: whatever runs then, it is still delayed and T + d has not been processed, or its delay ended
      while tick T + d was, or an event made it ready no later. */
  lemma WakesExactly(before: seq<Step>, d: nat, event: Option<nat>, run: seq<Step>)
    requires Legal(Initial, before) && Enabled(After(Initial, before), DelayStep(d, event))
    requires Legal(Next(After(Initial, before), DelayStep(d, event)), run)
    ensures var s := After(Initial, before);
      var s' := After(Next(s, DelayStep(d, event)), run);
      |s.log| <= |s'.log| && WaitsUntil(s', |s.log|, s.current.value, Now(s) + d)
  {
    var s := After(Initial, before);
    InvRun(Initial, before);
    WaitBegins(s, d, event);
    WaitRun(Next(s, DelayStep(d, event)), run, |s.log|, s.current.value, Now(s) + d);
  }

  lemma WaitBegins(s: State, d: nat, event: Option<nat>)
    requires Inv(s) && Enabled(s, DelayStep(d, event))
    ensures var s' := AddToDelayed(s, d, event);
      Inv(s') && |s'.log| == |s.log| && WaitsUntil(s', |s.log|, s.current.value, Now(s) + d)
  {
    DelayKept(s, d, event);
    DelayMoves(s, d, event);
    NotPassed(AddToDelayed(s, d, event), s.current.value);
  }

  /** Once a call of vCoRoutineSchedule has processed the ticks, the co-routines that are not ready are those whose
      delay is not over; and the count is the tick count that the call has read. */
  lemma CaughtUp(run: seq<Step>, co: Co)
    requires Legal(Initial, run) && Enabled(After(Initial, run), DispatchStep) && co in After(Initial, run).priority
    ensures var s := After(Initial, run);
      s.tick == s.phase.ticks && (!IsReady(s.ready, s.priority, co) ==> co in s.due && Now(s) < s.due[co])
  {
    InvRun(Initial, run);
    var s := After(Initial, run);
    if !IsReady(s.ready, s.priority, co) { NotPassed(s, co); }
  }

  /** The call that follows runs a ready co-routine of the highest priority, or none if none is ready. */
  lemma SchedulesHighest(run: seq<Step>)
    requires Legal(Initial, run) && Enabled(After(Initial, run), DispatchStep)
    ensures var s := After(Initial, run);
      match Next(s, DispatchStep).ran
      case None => forall co :: !IsReady(s.ready, s.priority, co)
      case Some(co) =>
        IsReady(s.ready, s.priority, co)
          && forall c :: IsReady(s.ready, s.priority, c) ==> s.priority[c] <= s.priority[co]
  {
    InvRun(Initial, run);
    DispatchesHighest(After(Initial, run));
  }

  /** A delay of no ticks, which crDELAY and the queue functions leave out, would not do: of any d below 2^32, the next
      tick processed leaves the co-routine on the list it retires exactly when d is 0 and the count is at its limit. */
  lemma ZeroDelayAtWrap(s: State, d: nat)
    requires Inv(s) && s.phase.Running? && CurrentIsReady(s) && d < WORD
    ensures var s' := AddToDelayed(s, d, None);
      Has(s'.delayed, s.current.value) && Wrap(s'.tick + 1) == 0 <==> d == 0 && s.tick == WORD - 1
  {
    var co, item := s.current.value, Item(s.current.value, Wrap(s.tick + d));
    InsertMembers(s.delayed, item);
    assert !Has(s.delayed, co);
    if item.value >= s.tick { assert item in AddToDelayed(s, d, None).delayed; }
  }

  lemma {:induction false} Extend(s: State, run: seq<Step>, e: Step)
    requires Legal(s, run) && Enabled(After(s, run), e)
    ensures Legal(s, run + [e]) && After(s, run + [e]) == Next(After(s, run), e)
    decreases |run|
  {
    if run == [] {
      assert Legal(Next(s, e), [e][1..]);
    } else {
      Extend(Next(s, run[0]), run[1..], e);
      assert (run + [e])[1..] == run[1..] + [e];
    }
  }
}
