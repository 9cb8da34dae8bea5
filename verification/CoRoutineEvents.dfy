/** What an event does for a co-routine that waits for it: whom it takes, and by when that co-routine is called. */
module CoRoutineEvents {
  import opened Wrappers
  import opened ListView
  import opened ItemList
  import opened CoRoutine

  // ----- One event -----

  /** The first item of the event list is last on the pending list afterwards; every other item is where it was. */
  lemma EventGoesPending(s: State, e: nat)
    requires Enabled(s, EventStep(e))
    ensures var s' := Next(s, EventStep(e));
      && s.events[e] == [s.events[e][0]] + s'.events[e] && s'.pending == s.pending + [s.events[e][0]]
      && s'.events.Keys == s.events.Keys && (forall f :: f in s.events && f != e ==> s'.events[f] == s.events[f])
      && s' == s.(events := s'.events, pending := s'.pending)
  {
    assert s.events[e] == [s.events[e][0]] + s.events[e][1..];
  }

  // ----- It is ready by the next call of the scheduler -----

  /** How often co has become ready since the log was n long. */
  function WakesOf(log: seq<Wake>, n: nat, co: Co): nat
    decreases |log|
  {
    if |log| <= n then 0
    else WakesOf(log[..|log| - 1], n, co) + if log[|log| - 1].co == co then 1 else 0
  }

  lemma WakesOfMore(log: seq<Wake>, n: nat, co: Co, wake: Wake)
    requires n <= |log|
    ensures WakesOf(log + [wake], n, co) == WakesOf(log, n, co) + if wake.co == co then 1 else 0
  {
    assert (log + [wake])[..|log|] == log;
  }

  ghost predicate Waiting(s: State, n: nat, co: Co) {
    Has(s.pending, co) && WakesOf(s.log, n, co) == 0
  }

  ghost predicate Woken(s: State, n: nat, co: Co) {
    WakesOf(s.log, n, co) == 1 && IsReady(s.ready, s.priority, co) && !s.phase.Running?
  }

  lemma ReadyNotListed(s: State, co: Co)
    requires Inv(s) && IsReady(s.ready, s.priority, co)
    ensures !Has(s.pending, co) && !Has(s.delayed, co) && !Has(s.overflow, co)
  {
    forall item | item in s.pending ensures item.co != co { assert IsDelayed(s.delayed, s.overflow, item.co); }
  }

  lemma TrackUnpending(s: State, n: nat, co: Co)
    requires Inv(s) && Enabled(s, UnpendStep) && n <= |s.log| && (Waiting(s, n, co) || Woken(s, n, co))
    ensures var s' := Unpend(s); n <= |s'.log| && (Waiting(s', n, co) || Woken(s', n, co))
  {
    UnpendReadies(s);
    WakesOfMore(s.log, n, co, Readied(s.pending[0].co, Now(s)));
    if Woken(s, n, co) {
      WokenNotFirst(s, co);
    } else if s.pending[0].co != co {
      HasBehind(s.pending, co);
    }
  }

  lemma WokenNotFirst(s: State, co: Co)
    requires Inv(s) && IsReady(s.ready, s.priority, co) && s.pending != []
    ensures s.pending[0].co != co
  {
    ReadyNotListed(s, co);
    assert s.pending[0] in s.pending;
  }

  lemma HasBehind(list: seq<Item>, co: Co)
    requires Has(list, co) && list[0].co != co
    ensures Has(list[1..], co)
  {
    var item :| item in list && item.co == co;
    assert list == [list[0]] + list[1..];
    assert item in list[1..];
  }

  lemma UnpendReadies(s: State)
    requires Inv(s) && Enabled(s, UnpendStep)
    ensures var s', head := Unpend(s), s.pending[0].co;
      && s'.log == s.log + [Readied(head, Now(s))] && s'.pending == s.pending[1..] && s'.phase == s.phase
      && head in s.priority && forall c :: c in s.priority ==>
           (IsReady(s'.ready, s'.priority, c) <==> IsReady(s.ready, s.priority, c) || c == head)
  {
    var head := s.pending[0].co;
    assert s.pending[0] in s.pending && IsDelayed(s.delayed, s.overflow, head);
    BecomesReady(s, Unpend(s), head);
  }

  /** A wake adds its co-routine to the ready lists. */
  lemma BecomesReady(s: State, s': State, head: Co)
    requires Inv(s) && head in s.priority && !IsReady(s.ready, s.priority, head) && Shape(s)
    requires s'.ready == AddToReady(s, head).ready && s'.priority == s.priority
    ensures forall c :: c in s.priority ==>
      (IsReady(s'.ready, s'.priority, c) <==> IsReady(s.ready, s.priority, c) || c == head)
  {
    AddToReadyOk(s, head);
  }

  lemma TrackExpiry(s: State, n: nat, co: Co)
    requires Inv(s) && Enabled(s, ExpireStep) && n <= |s.log| && (Waiting(s, n, co) || Woken(s, n, co))
    ensures var s' := Expire(s); n <= |s'.log| && (Waiting(s', n, co) || Woken(s', n, co))
  {
    var head := s.delayed[0].co;
    assert s.delayed[0] in s.delayed;
    assert Has(s.delayed, head);
    BecomesReady(s, Expire(s), head);
    WakesOfMore(s.log, n, co, TimedOut(head, Now(s)));
    if Woken(s, n, co) {
      ReadyNotListed(s, co);
    } else if head != co {
      RemoveKeeps(s.pending, head);
    }
  }

  lemma TrackKept(s: State, e: Step, n: nat, co: Co)
    requires Inv(s) && Enabled(s, e) && e != DispatchStep && n <= |s.log| && (Waiting(s, n, co) || Woken(s, n, co))
    ensures var s' := Next(s, e); n <= |s'.log| && (Waiting(s', n, co) || Woken(s', n, co))
  {
    if e.UnpendStep? {
      TrackUnpending(s, n, co);
    } else if e.ExpireStep? {
      TrackExpiry(s, n, co);
    } else if e.EventStep? {
      EventGoesPending(s, e.e);
    }
  }

  /** Pending before the tick count is read. */
  ghost predicate InTime(s: State, n: nat, co: Co) {
    (Waiting(s, n, co) && (s.phase.Running? || s.phase.Unpending?)) || Woken(s, n, co)
  }

  lemma InTimeKept(s: State, e: Step, n: nat, co: Co)
    requires Inv(s) && Enabled(s, e) && e != DispatchStep && n <= |s.log| && InTime(s, n, co)
    ensures n <= |Next(s, e).log| && InTime(Next(s, e), n, co)
  {
    TrackKept(s, e, n, co);
  }

  lemma {:induction false} InTimeRun(s: State, run: seq<Step>, n: nat, co: Co)
    requires Inv(s) && Legal(s, run) && DispatchStep !in run && n <= |s.log| && InTime(s, n, co)
    ensures InTime(After(s, run), n, co)
    decreases |run|
  {
    if run != [] {
      InTimeKept(s, run[0], n, co);
      InvKept(s, run[0]);
      InTimeRun(Next(s, run[0]), run[1..], n, co);
    }
  }

  /** An event that comes while a co-routine runs, or while pending co-routines are made ready, is answered by the next
      call of a co-routine: the one that waited has become ready, once, and is still ready then. */
  lemma EventReadies(before: seq<Step>, e: nat, run: seq<Step>)
    requires Legal(Initial, before) && Enabled(After(Initial, before), EventStep(e))
    requires After(Initial, before).phase.Running? || After(Initial, before).phase.Unpending?
    requires Legal(Next(After(Initial, before), EventStep(e)), run) && DispatchStep !in run
    requires Enabled(After(Next(After(Initial, before), EventStep(e)), run), DispatchStep)
    ensures var s := After(Initial, before); var co := s.events[e][0].co;
      var s' := After(Next(s, EventStep(e)), run);
      WakesOf(s'.log, |s.log|, co) == 1 && IsReady(s'.ready, s'.priority, co)
  {
    var s := After(Initial, before);
    EventPends(before, e);
    InTimeRun(Next(s, EventStep(e)), run, |s.log|, s.events[e][0].co);
  }

  lemma EventPends(before: seq<Step>, e: nat)
    requires Legal(Initial, before) && Enabled(After(Initial, before), EventStep(e))
    ensures var s := After(Initial, before); var s' := Next(s, EventStep(e));
      Inv(s) && Inv(s') && s'.log == s.log && s'.phase == s.phase && Waiting(s', |s.log|, s.events[e][0].co)
  {
    InitialOk();
    InvRun(Initial, before);
    var s := After(Initial, before);
    InvKept(s, EventStep(e));
    EventGoesPending(s, e);
    assert s.events[e][0] in Next(s, EventStep(e)).pending;
  }

  /** While the ticks are processed: woken by its delay, or still pending. */
  ghost predicate Late(s: State, n: nat, co: Co) {
    && (s.phase.Ticking? || s.phase.Expiring?)
    && (Waiting(s, n, co) || (Woken(s, n, co) && co in s.due && s.due[co] <= Now(s)))
  }

  lemma LateKept(s: State, e: Step, n: nat, co: Co)
    requires Inv(s) && Enabled(s, e) && e != DispatchStep && n <= |s.log| && Late(s, n, co)
    ensures n <= |Next(s, e).log| && Late(Next(s, e), n, co)
  {
    TrackKept(s, e, n, co);
    if e.ExpireStep? && Waiting(s, n, co) {
      WokenByDelay(s, n, co);
    } else if e.TickStep? {
      assert Now(Next(s, e)) == Now(s) + 1;
    }
  }

  lemma WokenByDelay(s: State, n: nat, co: Co)
    requires Inv(s) && Enabled(s, ExpireStep) && n <= |s.log| && Waiting(s, n, co)
    ensures Waiting(Expire(s), n, co) || (co in s.due && s.due[co] == Now(s))
  {
    var head := s.delayed[0].co;
    HeadIsDue(s);
    WakesOfMore(s.log, n, co, TimedOut(head, Now(s)));
    if head != co { RemoveKeeps(s.pending, head); }
  }

  lemma {:induction false} LateRun(s: State, run: seq<Step>, n: nat, co: Co)
    requires Inv(s) && Legal(s, run) && DispatchStep !in run && n <= |s.log| && Late(s, n, co)
    ensures Late(After(s, run), n, co) && Inv(After(s, run))
    decreases |run|
  {
    if run != [] {
      LateKept(s, run[0], n, co);
      InvKept(s, run[0]);
      LateRun(Next(s, run[0]), run[1..], n, co);
    }
  }

  /** An event that comes while the ticks are processed is answered by the next call exactly when the delay is over by
      then; else the co-routine is still pending, and the call after that one finds it ready. */
  lemma EventDuringTicks(before: seq<Step>, e: nat, run: seq<Step>)
    requires Legal(Initial, before) && Enabled(After(Initial, before), EventStep(e))
    requires After(Initial, before).phase.Ticking? || After(Initial, before).phase.Expiring?
    requires Legal(Next(After(Initial, before), EventStep(e)), run) && DispatchStep !in run
    requires Enabled(After(Next(After(Initial, before), EventStep(e)), run), DispatchStep)
    ensures var s := After(Initial, before); var co := s.events[e][0].co;
      var s' := After(Next(s, EventStep(e)), run);
      && co in s'.due
      && if s'.due[co] <= Now(s') then
           WakesOf(s'.log, |s.log|, co) == 1 && IsReady(s'.ready, s'.priority, co)
         else
           WakesOf(s'.log, |s.log|, co) == 0 && !IsReady(s'.ready, s'.priority, co) && Has(s'.pending, co)
  {
    var s := After(Initial, before);
    var co, s' := s.events[e][0].co, After(Next(s, EventStep(e)), run);
    EventPends(before, e);
    LateRun(Next(s, EventStep(e)), run, |s.log|, co);
    if Waiting(s', |s.log|, co) {
      var item :| item in s'.pending && item.co == co;
      assert IsDelayed(s'.delayed, s'.overflow, item.co);
      NotPassed(s', co);
    }
  }

  /** The call after: whatever is pending when a co-routine is called is ready at the next call. */
  lemma PendingIsServed(before: seq<Step>, co: Co, run: seq<Step>)
    requires Legal(Initial, before) && Enabled(After(Initial, before), DispatchStep)
    requires Has(After(Initial, before).pending, co)
    requires Legal(Next(After(Initial, before), DispatchStep), run) && DispatchStep !in run
    requires Enabled(After(Next(After(Initial, before), DispatchStep), run), DispatchStep)
    ensures var s := Next(After(Initial, before), DispatchStep);
      var s' := After(s, run);
      WakesOf(s'.log, |s.log|, co) == 1 && IsReady(s'.ready, s'.priority, co)
  {
    var was := After(Initial, before);
    InitialOk();
    InvRun(Initial, before);
    StaysPending(was, co);
    InTimeRun(Next(was, DispatchStep), run, |was.log|, co);
  }

  lemma StaysPending(s: State, co: Co)
    requires Inv(s) && Enabled(s, DispatchStep) && Has(s.pending, co)
    ensures var s' := Next(s, DispatchStep); Inv(s') && s'.log == s.log && InTime(s', |s.log|, co)
  {
    InvKept(s, DispatchStep);
    SameLog(s);
  }

  lemma SameLog(s: State)
    requires Enabled(s, DispatchStep)
    ensures var s' := Next(s, DispatchStep); s'.log == s.log && s'.pending == s.pending && s'.phase.Running?
  {
  }

  /** So the code does make an event wait: a co-routine delays itself by five ticks for event list 0, and the interrupt
      comes after the pending list was found empty; the call that follows finds no co-routine to call. */
  lemma EventMissesCall()
    ensures var before := [CreateStep(7, 0), DelayStep(5, Some(0)), StartStep, ReadTicksStep(0), EventStep(0)];
      && Legal(Initial, before) && Enabled(After(Initial, before), DispatchStep)
      && var s := Next(After(Initial, before), DispatchStep); s.ran == None && Has(s.pending, 7)
  {
    EventComesLate();
    TwoBefore([StartStep, ReadTicksStep(0), EventStep(0)]);
    assert [CreateStep(7, 0), DelayStep(5, Some(0))] + [StartStep, ReadTicksStep(0), EventStep(0)]
      == [CreateStep(7, 0), DelayStep(5, Some(0)), StartStep, ReadTicksStep(0), EventStep(0)];
  }

  lemma EventComesLate()
    ensures Legal(DelayedAlone(), [StartStep, ReadTicksStep(0), EventStep(0)])
    ensures var s5 := After(DelayedAlone(), [StartStep, ReadTicksStep(0), EventStep(0)]);
      Enabled(s5, DispatchStep) && Next(s5, DispatchStep).ran == None && Has(Next(s5, DispatchStep).pending, 7)
  {
    var s2 := DelayedAlone();
    var s3 := Next(s2, StartStep);
    var s4 := Next(s3, ReadTicksStep(0));
    var s5 := Next(s4, EventStep(0));
    assert s5 == s2.(phase := Ticking(0, 0), events := map[0 := []], pending := [Item(7, 2)]);
    assert Item(7, 2) in s5.pending;
    assert Legal(s5, []) && After(s5, []) == s5;
    StepFirst(s4, EventStep(0), []);
    StepFirst(s3, ReadTicksStep(0), [EventStep(0)]);
    StepFirst(s2, StartStep, [ReadTicksStep(0), EventStep(0)]);
  }

  /** Co-routine 7 has delayed itself, with no other there. */
  function DelayedAlone(): State {
    State(map[7 := 0], [Ready([], 0), Ready([], 0)], [Item(7, 5)], [], [], map[0 := [Item(7, 2)]], 0, Some(7),
          0, 0, Running, None, 0, map[7 := 5], [])
  }

  function ReadyAlone(): State {
    State(map[7 := 0], [Ready([7], 0), Ready([], 0)], [], [], [], map[], 0, Some(7), 0, 0, Running, None, 0, map[], [])
  }

  lemma CreatedAlone()
    ensures Enabled(Initial, CreateStep(7, 0)) && Next(Initial, CreateStep(7, 0)) == ReadyAlone()
  {
    var s1 := Next(Initial, CreateStep(7, 0));
    assert InsertEnd([], 0, 7) == [7];
    assert s1.ready[0] == Ready([7], 0) && s1.ready[1] == Ready([], 0) && s1.ready == ReadyAlone().ready;
  }

  lemma FirstSteps()
    ensures Enabled(Initial, CreateStep(7, 0))
    ensures var s1 := Next(Initial, CreateStep(7, 0));
      Enabled(s1, DelayStep(5, Some(0))) && Next(s1, DelayStep(5, Some(0))) == DelayedAlone()
  {
    CreatedAlone();
    var s1 := ReadyAlone();
    var s2 := Next(s1, DelayStep(5, Some(0)));
    assert IndexOf([7], 7) == 0 && Without([7], 0) == [];
    assert s2.ready[0] == Ready([], 0) && s2.ready[1] == Ready([], 0) && s2.ready == DelayedAlone().ready;
    assert Insert([], Item(7, 2)) == [Item(7, 2)] && Insert([], Item(7, 5)) == [Item(7, 5)];
  }

  lemma TwoBefore(rest: seq<Step>)
    requires Legal(DelayedAlone(), rest)
    ensures var run := [CreateStep(7, 0), DelayStep(5, Some(0))] + rest;
      Legal(Initial, run) && After(Initial, run) == After(DelayedAlone(), rest)
  {
    FirstSteps();
    StepFirst(Next(Initial, CreateStep(7, 0)), DelayStep(5, Some(0)), rest);
    StepFirst(Initial, CreateStep(7, 0), [DelayStep(5, Some(0))] + rest);
    assert [CreateStep(7, 0)] + ([DelayStep(5, Some(0))] + rest) == [CreateStep(7, 0), DelayStep(5, Some(0))] + rest;
  }

  lemma StepFirst(s: State, e: Step, rest: seq<Step>)
    requires Enabled(s, e) && Legal(Next(s, e), rest)
    ensures Legal(s, [e] + rest) && After(s, [e] + rest) == After(Next(s, e), rest)
  {
    assert ([e] + rest)[1..] == rest;
  }

  // ----- An event takes the most urgent -----

  /** The items on the event lists say how urgent their co-routines are. */
  ghost predicate ByPriority(events: map<nat, seq<Item>>, priority: map<Co, nat>) {
    forall e :: e in events ==> ItemsByPriority(events[e], priority)
  }

  ghost predicate ItemsByPriority(list: seq<Item>, priority: map<Co, nat>) {
    forall item :: item in list ==>
      item.co in priority && priority[item.co] < MAX_PRIORITIES && item.value == MAX_PRIORITIES - priority[item.co]
  }

  lemma ByPriorityKept(s: State, e: Step)
    requires Inv(s) && ByPriority(s.events, s.priority) && Enabled(s, e)
    ensures ByPriority(Next(s, e).events, Next(s, e).priority)
  {
    var s' := Next(s, e);
    forall ev | ev in s'.events ensures ItemsByPriority(s'.events[ev], s'.priority) {
      if ev in s.events { assert ItemsByPriority(s.events[ev], s.priority); }
      if e.ExpireStep? {
        RemoveKeeps(s.events[ev], s.delayed[0].co);
      } else if e.DelayStep? {
        DelayedByPriority(s, e, ev);
      } else {
        ListedBefore(s, e, ev);
      }
    }
  }

  lemma DelayedByPriority(s: State, e: Step, ev: nat)
    requires Enabled(s, e) && e.DelayStep? && ev in Next(s, e).events
    requires ItemsByPriority(EventList(s, ev), s.priority)
    ensures ItemsByPriority(Next(s, e).events[ev], Next(s, e).priority)
  {
    var p := s.priority[s.current.value];
    InsertMembers(EventList(s, ev), Item(s.current.value, MAX_PRIORITIES - p));
  }

  /** Other steps put nothing on an event list, and change no priority. */
  lemma ListedBefore(s: State, e: Step, ev: nat)
    requires Enabled(s, e) && !e.ExpireStep? && !e.DelayStep? && ev in Next(s, e).events
    ensures var s' := Next(s, e);
      && ev in s.events && (forall item :: item in s'.events[ev] ==> item in s.events[ev])
      && forall co :: co in s.priority ==> co in s'.priority && s'.priority[co] == s.priority[co]
  {
  }

  lemma {:induction false} ByPriorityRun(s: State, run: seq<Step>)
    requires Inv(s) && Legal(s, run) && ByPriority(s.events, s.priority)
    ensures ByPriority(After(s, run).events, After(s, run).priority)
    decreases |run|
  {
    if run != [] {
      ByPriorityKept(s, run[0]);
      InvKept(s, run[0]);
      ByPriorityRun(Next(s, run[0]), run[1..]);
    }
  }

  /** In every reachable state an event takes a co-routine of the highest priority of all that wait for it. */
  lemma EventTakesMostUrgent(run: seq<Step>, e: nat, item: Item)
    requires Legal(Initial, run) && Enabled(After(Initial, run), EventStep(e)) && item in After(Initial, run).events[e]
    ensures var s := After(Initial, run);
      && item.co in s.priority && s.events[e][0].co in s.priority
      && s.priority[item.co] <= s.priority[s.events[e][0].co]
  {
    InitialOk();
    InvRun(Initial, run);
    ByPriorityRun(Initial, run);
    var s := After(Initial, run);
    assert EventListOk(s.delayed, s.overflow, s.pending, s.events[e]) && ItemsByPriority(s.events[e], s.priority);
    FirstIsLeast(s.events[e]);
    assert s.events[e][0] in s.events[e];
  }

  // ----- Delays and creation -----

  /** A co-routine that delays itself for an event waits on its event list, and on no event list without one. */
  lemma DelayAwaits(s: State, d: nat, event: Option<nat>, e: nat)
    requires Inv(s) && Enabled(s, DelayStep(d, event))
    ensures var s' := Next(s, DelayStep(d, event)); var co := s.current.value;
      && !IsReady(s'.ready, s'.priority, co) && s'.pending == s.pending
      && if event == Some(e) then
           && e in s'.events && Has(s'.events[e], co)
           && forall c :: c != co ==> (Has(s'.events[e], c) <==> Has(EventList(s, e), c))
         else EventList(s', e) == EventList(s, e)
  {
    var co := s.current.value;
    RemoveReadyOk(s.ready, s.priority, s.top, co);
    if event == Some(e) {
      var item := Item(co, MAX_PRIORITIES - s.priority[co]);
      InsertMembers(EventList(s, e), item);
      assert item in Next(s, DelayStep(d, event)).events[e];
    }
  }

  /** A new co-routine is ready at the priority asked for, or the highest there is; all others keep theirs. In its
      priority its turn comes after all the others but the one whose turn it is. */
  lemma CreatedIsReady(s: State, co: Co, uxPriority: nat)
    requires Inv(s) && Enabled(s, CreateStep(co, uxPriority))
    ensures var s' := Next(s, CreateStep(co, uxPriority));
      var p := if uxPriority < MAX_PRIORITIES then uxPriority else MAX_PRIORITIES - 1;
      && s'.priority == s.priority[co := p] && IsReady(s'.ready, s'.priority, co)
      && (s.current.None? ==> s'.current == Some(co)) && (s.current.Some? ==> s'.current == s.current)
      && s'.top == (if p > s.top then p else s.top)
      && LastButOne(s.ready[p], s'.ready[p], co)
      && forall q :: 0 <= q < |s.ready| && q != p ==> s'.ready[q] == s.ready[q]
  {
    var p := if uxPriority < MAX_PRIORITIES then uxPriority else MAX_PRIORITIES - 1;
    AddedInTurn(s.ready[p], co);
  }

  /** In the order in which the co-routines of a list are called, co comes last, or last but for the one called last. */
  ghost predicate LastButOne(was: Ready, now: Ready, co: Co) {
    && was.pos <= |was.items| && now.pos <= |now.items|
    && var up := Upcoming(was.items, was.pos);
       Upcoming(now.items, now.pos) == if was.pos == 0 then up + [co] else up[..|up| - 1] + [co] + [up[|up| - 1]]
  }

  lemma AddedInTurn(list: Ready, co: Co)
    requires list.pos <= |list.items|
    ensures var now := Ready(InsertEnd(list.items, list.pos, co), InsertEndPos(list.pos));
      LastButOne(list, now, co) && co in now.items
  {
    InsertEndOrder(list.items, list.pos, co);
    InsertedAt(list.items, EndPlace(|list.items|, list.pos), co);
  }

  /** So it is for every co-routine made ready by an event or by its delay. */
  lemma WokenInTurn(s: State, e: Step)
    requires Inv(s) && Enabled(s, e) && (e.UnpendStep? || e.ExpireStep?)
    ensures var s', co := Next(s, e), if e.UnpendStep? then s.pending[0].co else s.delayed[0].co;
      && co in s.priority && LastButOne(s.ready[s.priority[co]], s'.ready[s.priority[co]], co)
      && forall q :: 0 <= q < |s.ready| && q != s.priority[co] ==> s'.ready[q] == s.ready[q]
  {
    var co := if e.UnpendStep? then s.pending[0].co else s.delayed[0].co;
    AddedInTurn(s.ready[s.priority[co]], co);
    AddedToReady(s, e, co);
  }

  lemma AddedToReady(s: State, e: Step, co: Co)
    requires Enabled(s, e) && (e.UnpendStep? || e.ExpireStep?)
    requires co == if e.UnpendStep? then s.pending[0].co else s.delayed[0].co
    ensures co in s.priority
    ensures var p := s.priority[co]; var list := s.ready[p];
      Next(s, e).ready == s.ready[p := Ready(InsertEnd(list.items, list.pos, co), InsertEndPos(list.pos))]
  {
  }

  // ----- The co-routines of a priority take turns -----

  /** The scheduler calls nothing but co-routines: no tick has come, and nothing is pending. */
  ghost predicate Idle(s: State) {
    Shape(s) && s.phase.Running? && s.current.Some? && s.pending == [] && s.last == s.tick
  }

  /** One call of vCoRoutineSchedule with nothing else to do. */
  lemma CallsNext(s: State)
    requires Idle(s) && s.ready[Descend(s.ready, s.top)].items != []
    ensures Legal(s, [StartStep, ReadTicksStep(s.tick), DispatchStep])
    ensures var s', t := After(s, [StartStep, ReadTicksStep(s.tick), DispatchStep]), Descend(s.ready, s.top);
      var list := s.ready[t]; var pos := Advance(|list.items|, list.pos);
      && Idle(s') && s'.top == t && s'.ready == s.ready[t := list.(pos := pos)] && s'.ran == Some(list.items[pos - 1])
      && Descend(s'.ready, s'.top) == t
  {
    var s1 := Next(s, StartStep);
    var s2 := Next(s1, ReadTicksStep(s.tick));
    assert s2 == s.(phase := Ticking(0, s.tick));
    var s3 := Next(s2, DispatchStep);
    CalledFromList(s, s2);
    assert Legal(s3, []) && After(s3, []) == s3;
    StepFirst(s2, DispatchStep, []);
    StepFirst(s1, ReadTicksStep(s.tick), [DispatchStep]);
    StepFirst(s, StartStep, [ReadTicksStep(s.tick), DispatchStep]);
  }

  lemma CalledFromList(s: State, s2: State)
    requires Idle(s) && s.ready[Descend(s.ready, s.top)].items != [] && s2 == s.(phase := Ticking(0, s.tick))
    ensures Enabled(s2, DispatchStep)
    ensures var s', t := Next(s2, DispatchStep), Descend(s.ready, s.top);
      var list := s.ready[t]; var pos := Advance(|list.items|, list.pos);
      && Idle(s') && s'.top == t && s'.ready == s.ready[t := list.(pos := pos)] && s'.ran == Some(list.items[pos - 1])
      && Descend(s'.ready, s'.top) == t
  {
  }

  /** The co-routines that k such calls call, and the state afterwards. */
  ghost function Calls(s: State, k: nat): (r: (seq<Co>, State))
    requires Idle(s) && s.ready[Descend(s.ready, s.top)].items != []
    decreases k
  {
    if k == 0 then ([], s)
    else
      CallsNext(s);
      var s' := After(s, [StartStep, ReadTicksStep(s.tick), DispatchStep]);
      var (rest, end) := Calls(s', k - 1);
      ([s'.ran.value] + rest, end)
  }

  lemma {:induction false} CallsFollowList(s: State, k: nat)
    requires Idle(s) && s.ready[Descend(s.ready, s.top)].items != []
    ensures var list := s.ready[Descend(s.ready, s.top)]; Calls(s, k).0 == Visits(list.items, list.pos, k)
    decreases k
  {
    if k > 0 {
      CallsNext(s);
      CallsFollowList(After(s, [StartStep, ReadTicksStep(s.tick), DispatchStep]), k - 1);
    }
  }

  /** With n co-routines ready at the highest ready priority, n calls call each of them once. */
  lemma TurnsAreFair(s: State)
    requires Idle(s) && s.ready[Descend(s.ready, s.top)].items != []
    ensures var items := s.ready[Descend(s.ready, s.top)].items;
      multiset(Calls(s, |items|).0) == multiset(items)
  {
    var list := s.ready[Descend(s.ready, s.top)];
    CallsFollowList(s, |list.items|);
    FullTurnVisitsEachOnce(list.items, list.pos);
  }
}
