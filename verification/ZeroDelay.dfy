/** When a delay of any length ends, zero included. The invariant of CoRoutine is about delays of at least one tick, the
  only ones its callers ask for; here one item is followed on its own, whatever else is on the lists. */
module ZeroDelay {
  import opened Wrappers
  import ListView
  import opened ItemList
  import opened CoRoutine

  /** How long after the call a delay of d ticks ends. */
  function Lasts(tick: nat, d: nat): nat {
    if d > 0 then d else if tick < WORD - 1 then 1 else 2 * WORD
  }

  /** x is the only item of its co-routine, on one of the delay lists, and that is not ready. */
  ghost predicate Alone(s: State, x: Item) {
    && x.co in s.priority && x.value < WORD
    && (x in s.delayed <==> x !in s.overflow)
    && (forall y :: y in s.delayed || y in s.overflow ==> y.co == x.co ==> y == x)
    && forall p :: 0 <= p < |s.ready| ==> x.co !in s.ready[p].items
  }

  /** Where x stands says when its delay ends. */
  ghost predicate Standing(s: State, x: Item, D: nat) {
    && s.tick < WORD && Ascending(s.delayed) && Ascending(s.overflow)
    && if x in s.delayed then EndsFromDelayed(s.base, s.tick, s.phase.Expiring?, x.value, D)
      else D == s.base + WORD + x.value
  }

  predicate EndsFromDelayed(base: nat, tick: nat, expiring: bool, value: nat, D: nat) {
    if value > tick then D == base + value
    else if expiring then D == base + tick
    else value == tick && D == base + tick + Lasts(tick, 0)
  }

  /** A step that neither readies x's co-routine nor counts a tick leaves x where it is. */
  ghost predicate Undisturbed(s: State, s': State, x: Item) {
    && Alone(s', x) && Ascending(s'.delayed) && Ascending(s'.overflow)
    && (x in s'.delayed <==> x in s.delayed) && s'.base == s.base && s'.tick == s.tick
  }

  lemma AloneAfterAdding(s: State, x: Item, co: Co)
    requires Shape(s) && Alone(s, x) && co in s.priority && co != x.co
    ensures Alone(AddToReady(s, co), x)
  {
    var list := s.ready[s.priority[co]];
    InsertedAt(list.items, ListView.EndPlace(|list.items|, list.pos), co);
  }

  lemma ExpireLeaves(s: State, x: Item)
    requires Shape(s) && Alone(s, x) && Ascending(s.delayed) && Ascending(s.overflow)
    requires s.delayed != [] && s.delayed[0].co in s.priority && s.delayed[0].co != x.co
    ensures Undisturbed(s, Expire(s), x)
  {
    assert s.delayed == [s.delayed[0]] + s.delayed[1..];
    AloneAfterAdding(Expired(s), x, s.delayed[0].co);
  }

  lemma UnpendLeaves(s: State, x: Item)
    requires Shape(s) && Alone(s, x) && Ascending(s.delayed) && Ascending(s.overflow)
    requires s.pending != [] && s.pending[0].co in s.priority && s.pending[0].co != x.co
    ensures Undisturbed(s, Unpend(s), x)
  {
    var co := s.pending[0].co;
    RemoveKeeps(s.delayed, co);
    RemoveKeeps(s.overflow, co);
    RemoveAscending(s.delayed, co);
    RemoveAscending(s.overflow, co);
    AloneAfterAdding(s.(pending := s.pending[1..], delayed := Remove(s.delayed, co), overflow := Remove(s.overflow, co),
                        log := s.log + [Readied(co, Now(s))]), x, co);
  }

  lemma DelayLeaves(s: State, d: nat, event: Option<nat>, x: Item)
    requires Shape(s) && Alone(s, x) && Ascending(s.delayed) && Ascending(s.overflow) && CurrentIsReady(s) && d < WORD
    ensures Undisturbed(s, AddToDelayed(s, d, event), x)
  {
    var co := s.current.value;
    var item := Item(co, Wrap(s.tick + d));
    InsertAscending(s.delayed, item);
    InsertAscending(s.overflow, item);
    InsertMembers(s.delayed, item);
    InsertMembers(s.overflow, item);
    var items := s.ready[s.priority[co]].items;
    var j := IndexOf(items, co);
    assert forall i :: 0 <= i < |items| - 1 ==> ListView.Without(items, j)[i] == items[if i < j then i else i + 1];
  }

  lemma CreateLeaves(s: State, co: Co, uxPriority: nat, x: Item)
    requires Shape(s) && Alone(s, x) && Ascending(s.delayed) && Ascending(s.overflow) && co !in s.priority
    ensures Undisturbed(s, Create(s, co, uxPriority), x)
  {
    var p := if uxPriority >= MAX_PRIORITIES then MAX_PRIORITIES - 1 else uxPriority;
    var s1 := s.(priority := s.priority[co := p], current := if s.current == None then Some(co) else s.current);
    AloneAfterAdding(s1, x, co);
  }

  /** The tick that x waits for, or the turn of the tick count, comes one step closer. */
  lemma TickCounts(s: State, x: Item, D: nat)
    requires Alone(s, x) && Standing(s, x, D) && s.phase.Ticking? && s.phase.passed > 0
    ensures Alone(Tick(s), x) && Standing(Tick(s), x, D)
  {
  }

  /** The inner loop has ended: nothing that is due is left. */
  lemma ExpiredLeaves(s: State, x: Item, D: nat)
    requires Alone(s, x) && Standing(s, x, D) && s.phase.Expiring? && (s.delayed == [] || s.tick < s.delayed[0].value)
    ensures x in s.delayed ==> x.value > s.tick
  {
    if s.delayed != [] { FirstIsLeast(s.delayed); }
  }

  /** Not ready yet, and not late either. */
  lemma StandingInTime(s: State, x: Item, D: nat)
    requires Alone(s, x) && Standing(s, x, D)
    ensures if s.phase.Expiring? then Now(s) <= D else Now(s) < D
  {
  }

  /** What a step does to x: it logs its co-routine, in time, or leaves it standing. */
  ghost predicate Follows(s: State, s': State, x: Item, D: nat) {
    if |s'.log| == |s.log| + 1 && s'.log[|s.log|].co == x.co then
      s'.log[|s.log|] == TimedOut(x.co, D) || (s'.log[|s.log|].Readied? && s'.log[|s.log|].at <= D)
    else Alone(s', x) && Standing(s', x, D)
  }

  lemma StandingKept(s: State, e: Step, x: Item, D: nat)
    requires Enabled(s, e) && Alone(s, x) && Standing(s, x, D)
    ensures Follows(s, Next(s, e), x, D)
  {
    match e
    case CreateStep(co, uxPriority) => CreateLeaves(s, co, uxPriority, x);
    case DelayStep(d, event) => DelayLeaves(s, d, event, x);
    case EventStep(_) =>
    case StartStep =>
    case UnpendStep => StandingThroughUnpending(s, x, D);
    case ReadTicksStep(_) =>
    case TickStep => TickCounts(s, x, D);
    case ExpireStep => StandingThroughExpiry(s, x, D);
    case ExpiredStep => ExpiredLeaves(s, x, D);
    case DispatchStep =>
  }

  lemma StandingThroughUnpending(s: State, x: Item, D: nat)
    requires Enabled(s, UnpendStep) && Alone(s, x) && Standing(s, x, D)
    ensures Follows(s, Unpend(s), x, D)
  {
    StandingInTime(s, x, D);
    if s.pending[0].co != x.co { UnpendLeaves(s, x); }
  }

  lemma StandingThroughExpiry(s: State, x: Item, D: nat)
    requires Enabled(s, ExpireStep) && Alone(s, x) && Standing(s, x, D)
    ensures Follows(s, Expire(s), x, D)
  {
    assert s.delayed[0] in s.delayed;
    if s.delayed[0].co != x.co { ExpireLeaves(s, x); }
  }

  /** Since the log was n long, the co-routine of x has not become ready, and its delay has not ended; or it did so
    first by its delay, exactly at D; or by an event, no later. */
  ghost predicate EndsAt(s: State, n: nat, x: Item, D: nat)
    requires n <= |s.log|
  {
    match FirstWake(s.log, n, x.co)
    case None => Alone(s, x) && Standing(s, x, D)
    case Some(TimedOut(_, at)) => at == D
    case Some(Readied(_, at)) => at <= D
  }

  lemma EndKept(s: State, e: Step, n: nat, x: Item, D: nat)
    requires Enabled(s, e) && n <= |s.log| && EndsAt(s, n, x, D)
    ensures n <= |Next(s, e).log| && EndsAt(Next(s, e), n, x, D)
  {
    var s' := Next(s, e);
    var more := s'.log[|s.log|..];
    assert s'.log == s.log + more;
    FirstWakeGrows(s.log, more, n, x.co);
    if FirstWake(s.log, n, x.co).None? { StandingKept(s, e, x, D); }
  }

  lemma {:induction false} EndRun(s: State, run: seq<Step>, n: nat, x: Item, D: nat)
    requires Legal(s, run) && n <= |s.log| && EndsAt(s, n, x, D)
    ensures n <= |After(s, run).log| && EndsAt(After(s, run), n, x, D)
    decreases |run|
  {
    if run != [] {
      EndKept(s, run[0], n, x, D);
      EndRun(Next(s, run[0]), run[1..], n, x, D);
    }
  }

  lemma DelayStands(s: State, d: nat, event: Option<nat>)
    requires Inv(s) && s.phase.Running? && CurrentIsReady(s) && d < WORD
    ensures var x, s' := Item(s.current.value, Wrap(s.tick + d)), AddToDelayed(s, d, event);
      s'.log == s.log && Alone(s', x) && Standing(s', x, Now(s) + Lasts(s.tick, d))
  {
    CurrentNotDelayed(s);
    DelayStandsAlone(s, d, event);
    DelayedThere(s, d, event);
  }

  lemma DelayStandsAlone(s: State, d: nat, event: Option<nat>)
    requires Shape(s) && ReadyOk(s.ready, s.priority, s.top) && CurrentIsReady(s) && d < WORD
    requires !IsDelayed(s.delayed, s.overflow, s.current.value)
    ensures Alone(AddToDelayed(s, d, event), Item(s.current.value, Wrap(s.tick + d)))
  {
    var x := Item(s.current.value, Wrap(s.tick + d));
    InsertMembers(s.delayed, x);
    InsertMembers(s.overflow, x);
    RemoveReadyOk(s.ready, s.priority, s.top, x.co);
    NotInReady(s, AddToDelayed(s, d, event).ready, x.co);
  }

  lemma DelayedThere(s: State, d: nat, event: Option<nat>)
    requires Shape(s) && CurrentIsReady(s) && d < WORD && !s.phase.Expiring?
    requires Ascending(s.delayed) && Ascending(s.overflow) && !IsDelayed(s.delayed, s.overflow, s.current.value)
    ensures Standing(AddToDelayed(s, d, event), Item(s.current.value, Wrap(s.tick + d)), Now(s) + Lasts(s.tick, d))
  {
    var x := Item(s.current.value, Wrap(s.tick + d));
    InsertMembers(s.delayed, x);
    InsertAscending(s.delayed, x);
    InsertAscending(s.overflow, x);
    assert x !in s.delayed;
  }

  lemma NotInReady(s: State, ready: seq<Ready>, co: Co)
    requires ReadyOk(ready, s.priority, s.top) && !IsReady(ready, s.priority, co)
    ensures forall p :: 0 <= p < |ready| ==> co !in ready[p].items
  {
    forall p | 0 <= p < |ready| ensures co !in ready[p].items { assert ReadyListOk(ready[p], p, s.priority, s.top); }
  }

  /** The exact end of every delay below 2^32, at any time T: T + d if d is not zero; for zero, the next tick, but at
    the last tick before the count wraps only 2^33 ticks later. Whatever runs, the co-routine still waits and that
    time has not been processed, or its delay ended while that tick was, or an event made it ready no later. */
  lemma DelayEndsExactly(before: seq<Step>, d: nat, event: Option<nat>, run: seq<Step>)
    requires Legal(Initial, before) && After(Initial, before).phase.Running? && d < WORD
    requires Shape(After(Initial, before)) && CurrentIsReady(After(Initial, before))
    requires Legal(AddToDelayed(After(Initial, before), d, event), run)
    ensures var s := After(Initial, before);
      var s', D := After(AddToDelayed(s, d, event), run), Now(s) + Lasts(s.tick, d);
      |s.log| <= |s'.log| &&
      match FirstWake(s'.log, |s.log|, s.current.value)
      case None => IsDelayed(s'.delayed, s'.overflow, s.current.value)
        && if s'.phase.Expiring? then Now(s') <= D else Now(s') < D
      case Some(TimedOut(_, at)) => at == D
      case Some(Readied(_, at)) => at <= D
  {
    var s := After(Initial, before);
    InitialOk();
    InvRun(Initial, before);
    DelayStands(s, d, event);
    var x, D := Item(s.current.value, Wrap(s.tick + d)), Now(s) + Lasts(s.tick, d);
    FirstWakeNone(s.log, x.co);
    EndRun(AddToDelayed(s, d, event), run, |s.log|, x, D);
    var s' := After(AddToDelayed(s, d, event), run);
    if FirstWake(s'.log, |s.log|, x.co).None? { StandingInTime(s', x, D); }
  }

  lemma FirstWakeNone(log: seq<Wake>, co: Co)
    ensures FirstWake(log, |log|, co) == None
  {
  }
}
