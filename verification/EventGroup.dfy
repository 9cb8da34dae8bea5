/** Words of event bits, and what xEventGroupSetBits does in one shot. */
module EventBits {
  type Task = nat

  /** EventBits_t has 32 bits. A word is the set of the positions of its ones, so that the or, the and and the
      and-not of event_groups.c are union, intersection and difference. */
  newtype Bit = x: int | 0 <= x < 32
  type Bits = set<Bit>

  const CLEAR_EVENTS_ON_EXIT: Bit := 24
  const UNBLOCKED_DUE_TO_BIT_SET: Bit := 25
  const WAIT_FOR_ALL: Bit := 26
  /** taskEVENT_LIST_ITEM_VALUE_IN_USE, which the scheduler adds to the value of an item. */
  const IN_USE: Bit := 31

  predicate IsControl(b: Bit) { b >= 24 }

  /** a & ~eventEVENT_BITS_CONTROL_BYTES */
  function Events(a: Bits): Bits {
    set b | b in a && !IsControl(b)
  }

  predicate NoControl(a: Bits) {
    forall b :: b in a ==> !IsControl(b)
  }

  /** An item of the waiting list: its value holds the bits waited for and the control bits. */
  datatype Waiter = Waiter(task: Task, value: Bits)

  /** prvTestWaitCondition */
  predicate TestWaitCondition(current: Bits, waitFor: Bits, all: bool) {
    if all then waitFor <= current else current * waitFor != {}
  }

  predicate Satisfied(w: Waiter, bits: Bits) {
    TestWaitCondition(bits, Events(w.value), WAIT_FOR_ALL in w.value)
  }

  predicate Clears(w: Waiter, bits: Bits) {
    Satisfied(w, bits) && CLEAR_EVENTS_ON_EXIT in w.value
  }

  /** values: of the items that are not on the list. */
  datatype Group = Group(bits: Bits, waiting: seq<Waiter>, values: map<Task, Bits>)

  /** The waiters that bits do not satisfy, in order. */
  function Kept(waiting: seq<Waiter>, bits: Bits): (r: seq<Waiter>) {
    if waiting == [] then []
    else
      var before := Kept(waiting[..|waiting| - 1], bits);
      var last := waiting[|waiting| - 1];
      if Satisfied(last, bits) then before else before + [last]
  }

  /** All that a satisfied waiter wants cleared. */
  function ClearMask(waiting: seq<Waiter>, bits: Bits): Bits {
    set w, b | w in waiting && Clears(w, bits) && b in Events(w.value) :: b
  }

  function Woken(waiting: seq<Waiter>, bits: Bits): set<Task> {
    set w | w in waiting && Satisfied(w, bits) :: w.task
  }

  /** The value that the item of a task unblocked by bits is left with. */
  function Delivery(bits: Bits): Bits {
    bits + {UNBLOCKED_DUE_TO_BIT_SET, IN_USE}
  }

  /** The items of these tasks handed bits. */
  function Deliver(values: map<Task, Bits>, tasks: set<Task>, bits: Bits): map<Task, Bits> {
    values + map t | t in tasks :: Delivery(bits)
  }

  /** xEventGroupSetBits in one shot. */
  function SetBits(g: Group, toSet: Bits): Group {
    var now := g.bits + toSet;
    Group(now - ClearMask(g.waiting, now), Kept(g.waiting, now), Deliver(g.values, Woken(g.waiting, now), now))
  }

  lemma {:induction false} KeptIn(waiting: seq<Waiter>, bits: Bits, w: Waiter)
    ensures w in Kept(waiting, bits) <==> w in waiting && !Satisfied(w, bits)
  {
    if waiting != [] {
      KeptIn(waiting[..|waiting| - 1], bits, w);
      assert waiting == waiting[..|waiting| - 1] + [waiting[|waiting| - 1]];
    }
  }

  /** Nothing in the outcome depends on the order of the list, except the order of what stays on it. */
  lemma OrderDoesNotMatter(g: Group, h: Group, toSet: Bits)
    requires g.bits == h.bits && g.values == h.values && multiset(g.waiting) == multiset(h.waiting)
    ensures var g', h' := SetBits(g, toSet), SetBits(h, toSet);
      g'.bits == h'.bits && g'.values == h'.values && multiset(g'.waiting) == multiset(h'.waiting)
  {
    var now := g.bits + toSet;
    SameMembers(g.waiting, h.waiting, now);
    forall w: Waiter ensures multiset(Kept(g.waiting, now))[w] == multiset(Kept(h.waiting, now))[w] {
      KeptCount(g.waiting, now, w);
      KeptCount(h.waiting, now, w);
    }
  }

  lemma SameMembers(a: seq<Waiter>, b: seq<Waiter>, bits: Bits)
    requires multiset(a) == multiset(b)
    ensures ClearMask(a, bits) == ClearMask(b, bits) && Woken(a, bits) == Woken(b, bits)
  {
    assert forall w :: w in a <==> w in multiset(a);
    assert forall w :: w in b <==> w in multiset(b);
  }

  lemma {:induction false} KeptCount(waiting: seq<Waiter>, bits: Bits, w: Waiter)
    ensures multiset(Kept(waiting, bits))[w] == if Satisfied(w, bits) then 0 else multiset(waiting)[w]
  {
    if waiting != [] {
      KeptCount(waiting[..|waiting| - 1], bits, w);
      assert waiting == waiting[..|waiting| - 1] + [waiting[|waiting| - 1]];
    }
  }

  ghost predicate Distinct(waiting: seq<Waiter>) {
    forall i, j :: 0 <= i < j < |waiting| ==> waiting[i].task != waiting[j].task
  }

  lemma {:induction false} KeptDistinct(waiting: seq<Waiter>, bits: Bits)
    requires Distinct(waiting)
    ensures Distinct(Kept(waiting, bits))
  {
    if waiting != [] {
      var init := waiting[..|waiting| - 1];
      KeptDistinct(init, bits);
      forall w | w in Kept(init, bits) ensures w.task != waiting[|waiting| - 1].task { KeptIn(init, bits, w); }
    }
  }

  /** Clearing bits satisfies nobody. */
  lemma FewerBits(w: Waiter, bits: Bits, fewer: Bits)
    requires fewer <= bits && !Satisfied(w, bits)
    ensures !Satisfied(w, fewer)
  {
    assert fewer * Events(w.value) <= bits * Events(w.value);
  }

  /** prvTestWaitCondition, bit by bit. */
  lemma ConditionIs(current: Bits, waitFor: Bits, all: bool)
    ensures TestWaitCondition(current, waitFor, all) <==>
      if all then forall b: Bit :: b in waitFor ==> b in current else exists b: Bit :: b in waitFor && b in current
  {
    if b: Bit :| b in waitFor && b in current { assert b in current * waitFor; }
    if b :| b in current * waitFor { assert b in waitFor && b in current; }
  }

  /** A waiter for all its bits stays on the list exactly when one of them is missing, a waiter for any exactly when all
      are; who goes is handed the bits, with the bit that says why. */
  lemma SetBitsSplits(g: Group, toSet: Bits, w: Waiter)
    requires w in g.waiting
    ensures var now, g' := g.bits + toSet, SetBits(g, toSet);
      && (w in g'.waiting <==>
            if WAIT_FOR_ALL in w.value then exists b: Bit :: b < 24 && b in w.value && b !in now
            else forall b: Bit :: b < 24 && b in w.value ==> b !in now)
      && (w !in g'.waiting ==> w.task in g'.values)
      && (w !in g'.waiting ==>
            forall b: Bit :: b in g'.values[w.task] <==> b in now || b == UNBLOCKED_DUE_TO_BIT_SET || b == IN_USE)
  {
    var now := g.bits + toSet;
    StaysOrGoes(g, toSet, w);
    KeptIn(g.waiting, now, w);
    ConditionIs(now, Events(w.value), WAIT_FOR_ALL in w.value);
    forall b: Bit ensures b in Events(w.value) <==> b < 24 && b in w.value {}
  }

  /** A bit is set afterwards exactly when it was or is being set, and nobody leaves who wants it cleared. */
  lemma SetBitsClears(g: Group, toSet: Bits, b: Bit)
    ensures var g' := SetBits(g, toSet);
      b in g'.bits <==>
        && (b in g.bits || b in toSet)
        && forall w :: w in g.waiting && w !in g'.waiting && CLEAR_EVENTS_ON_EXIT in w.value && b < 24 ==> b !in w.value
  {
    var now, g' := g.bits + toSet, SetBits(g, toSet);
    forall w | w in g.waiting ensures w in g'.waiting <==> !Satisfied(w, now) { KeptIn(g.waiting, now, w); }
    if b in ClearMask(g.waiting, now) {
      var w :| w in g.waiting && Clears(w, now) && b in Events(w.value);
      assert w !in g'.waiting;
    }
    forall w | w in g.waiting && w !in g'.waiting && CLEAR_EVENTS_ON_EXIT in w.value && b < 24 && b in w.value
      ensures b in ClearMask(g.waiting, now)
    {
      assert Clears(w, now) && b in Events(w.value);
    }
  }

  /** What stays on the list is unsatisfied, what went off has been handed bits that satisfy it. */
  lemma StaysOrGoes(g: Group, toSet: Bits, w: Waiter)
    requires w in g.waiting
    ensures var now, g' := g.bits + toSet, SetBits(g, toSet);
      if w in g'.waiting then !Satisfied(w, g'.bits)
      else Satisfied(w, now) && w.task in g'.values && g'.values[w.task] == Delivery(now)
  {
    var now := g.bits + toSet;
    KeptIn(g.waiting, now, w);
    if Satisfied(w, now) { assert w.task in Woken(g.waiting, now); } else { FewerBits(w, now, SetBits(g, toSet).bits); }
  }

  /** What stays keeps its order: it is the list with the satisfied waiters taken out. */
  lemma {:induction false} KeptInOrder(a: seq<Waiter>, b: seq<Waiter>, bits: Bits)
    ensures Kept(a + b, bits) == Kept(a, bits) + Kept(b, bits)
    decreases |b|
  {
    if b == [] {
      assert a + b == a;
    } else {
      KeptInOrder(a, b[..|b| - 1], bits);
      assert (a + b)[..|a + b| - 1] == a + b[..|b| - 1];
    }
  }
}

/** The functions of event_groups.c. A step is what a call does with the scheduler suspended; xEventGroupSync is
  three, because it calls xEventGroupSetBits, which suspends and resumes the scheduler itself. */
module EventGroup {
  import opened Wrappers
  import opened EventBits

  datatype Pc =
    | Out
    | Setting(toSet: Bits, waitFor: Bits, blockTime: bool, original: Bits)   // in xEventGroupSync
    | Deciding(toSet: Bits, waitFor: Bits, blockTime: bool, original: Bits)
    | Blocked(waitFor: Bits, clear: bool, all: bool)

  /** depth: how often the scheduler has been suspended, by the task suspendedBy. entered counts the calls of
      xEventGroupSync, returned holds what xEventGroupSync and xEventGroupWaitBits returned. */
  datatype State = State(
    group: Group, depth: nat, suspendedBy: Option<Task>, pcs: map<Task, Pc>,
    entered: map<Task, nat>, returned: map<Task, seq<Bits>>)

  const Initial: State := State(Group({}, [], map[]), 0, None, map[], map[], map[])

  function PcOf(s: State, t: Task): Pc {
    if t in s.pcs then s.pcs[t] else Out
  }

  function Entered(s: State, t: Task): nat {
    if t in s.entered then s.entered[t] else 0
  }

  function Returned(s: State, t: Task): seq<Bits> {
    if t in s.returned then s.returned[t] else []
  }

  function Goto(s: State, t: Task, pc: Pc): State {
    s.(pcs := s.pcs[t := pc])
  }

  function Return(s: State, t: Task, bits: Bits): State {
    s.(pcs := s.pcs[t := Out], returned := s.returned[t := Returned(s, t) + [bits]])
  }

  /** vTaskSuspendAll */
  function SuspendAll(s: State, t: Task): State {
    s.(depth := s.depth + 1, suspendedBy := Some(t))
  }

  /** xTaskResumeAll: the scheduler runs again only when every suspension has been undone. */
  function ResumeAll(s: State): State
    requires s.depth > 0
  {
    s.(depth := s.depth - 1, suspendedBy := if s.depth == 1 then None else s.suspendedBy)
  }

  /** vTaskPlaceOnUnorderedEventList, at the end of the list. */
  function Block(s: State, t: Task, waitFor: Bits, clear: bool, all: bool): State {
    var w := Waiter(t, ItemValue(waitFor, clear, all));
    Goto(s.(group := s.group.(waiting := s.group.waiting + [w])), t, Blocked(waitFor, clear, all))
  }

  function ItemValue(waitFor: Bits, clear: bool, all: bool): Bits {
    waitFor + (if clear then {CLEAR_EVENTS_ON_EXIT} else {}) + (if all then {WAIT_FOR_ALL} else {}) + {IN_USE}
  }

  function ClearBits(s: State, toClear: Bits): State {
    s.(group := s.group.(bits := s.group.bits - toClear))
  }

  datatype Step =
    | SetBits(t: Task, toSet: Bits)
    | ClearBits(t: Task, toClear: Bits)
    | WaitBits(t: Task, waitFor: Bits, clear: bool, all: bool, blockTime: bool)
    | SyncStart(t: Task, toSet: Bits, waitFor: Bits, blockTime: bool)
    | SyncSet(t: Task)
    | SyncDecide(t: Task)
    | TimeOut(t: Task, at: nat)         // a tick: the task goes off the list, its item as it was
    | RunAgain(t: Task)                 // a task that has blocked runs again

  predicate MayRun(s: State, t: Task) {
    s.depth == 0 || s.suspendedBy == Some(t)
  }

  predicate Waits(g: Group, t: Task) {
    exists w :: w in g.waiting && w.task == t
  }

  predicate Enabled(s: State, e: Step) {
    match e
    case SetBits(t, toSet) => MayRun(s, t) && PcOf(s, t).Out? && NoControl(toSet)
    case ClearBits(t, toClear) => MayRun(s, t) && PcOf(s, t).Out? && NoControl(toClear)
    case WaitBits(t, waitFor, _, _, _) => MayRun(s, t) && PcOf(s, t).Out? && NoControl(waitFor) && waitFor != {}
    case SyncStart(t, toSet, waitFor, _) =>
      MayRun(s, t) && PcOf(s, t).Out? && NoControl(toSet) && NoControl(waitFor) && waitFor != {}
    case SyncSet(t) => MayRun(s, t) && PcOf(s, t).Setting?
    case SyncDecide(t) => MayRun(s, t) && PcOf(s, t).Deciding? && s.depth > 0
    case TimeOut(t, at) => s.depth == 0 && at < |s.group.waiting| && s.group.waiting[at].task == t
    case RunAgain(t) => MayRun(s, t) && PcOf(s, t).Blocked? && !Waits(s.group, t) && t in s.group.values
  }

  function Next(s: State, e: Step): State
    requires Enabled(s, e)
  {
    match e
    case SetBits(t, toSet) => Goto(Set(s, t, toSet), t, Out)
    case ClearBits(t, toClear) => ClearBits(s, toClear)
    case WaitBits(t, waitFor, clear, all, blockTime) =>
      ResumeAll(Wait(SuspendAll(s, t), t, waitFor, clear, all, blockTime))
    case SyncStart(t, toSet, waitFor, blockTime) =>
      Goto(SuspendAll(s, t), t, Setting(toSet, waitFor, blockTime, s.group.bits))
        .(entered := s.entered[t := Entered(s, t) + 1])
    case SyncSet(t) =>
      var pc := PcOf(s, t);
      Goto(Set(s, t, pc.toSet), t, Deciding(pc.toSet, pc.waitFor, pc.blockTime, pc.original))
    case SyncDecide(t) => ResumeAll(Decide(s, t))
    case TimeOut(t, at) =>
      s.(group := s.group.(waiting := s.group.waiting[..at] + s.group.waiting[at + 1..],
                           values := s.group.values[t := s.group.waiting[at].value]))
    case RunAgain(t) => Unblock(s, t)
  }

  function Set(s: State, t: Task, toSet: Bits): State {
    ResumeAll(SuspendAll(s, t).(group := EventBits.SetBits(s.group, toSet)))
  }

  /** xEventGroupWaitBits up to its block. */
  function Wait(s: State, t: Task, waitFor: Bits, clear: bool, all: bool, blockTime: bool): State {
    var current := s.group.bits;
    if TestWaitCondition(current, waitFor, all) then
      Return(if clear then ClearBits(s, waitFor) else s, t, current)
    else if !blockTime then Return(s, t, current)
    else Block(s, t, waitFor, clear, all)
  }

  /** xEventGroupSync from its test of the rendezvous bits up to its block. */
  function Decide(s: State, t: Task): State
    requires PcOf(s, t).Deciding?
  {
    var pc := PcOf(s, t);
    var reached := pc.original + pc.toSet;
    if pc.waitFor <= reached then Return(ClearBits(s, pc.waitFor), t, reached)
    else if pc.blockTime then Block(s, t, pc.waitFor, true, true)
    else Return(s, t, s.group.bits)
  }

  /** What either function does once its task runs again. */
  function Unblock(s: State, t: Task): State
    requires PcOf(s, t).Blocked? && t in s.group.values
  {
    var pc, value := PcOf(s, t), s.group.values[t];
    if UNBLOCKED_DUE_TO_BIT_SET in value then Return(s, t, Events(value))
    else
      var current := s.group.bits;
      var s' := if TestWaitCondition(current, pc.waitFor, pc.all) && pc.clear then ClearBits(s, pc.waitFor) else s;
      Return(s', t, Events(current))
  }

  predicate Legal(s: State, run: seq<Step>)
    decreases |run|
  {
    run == [] || (Enabled(s, run[0]) && Legal(Next(s, run[0]), run[1..]))
  }

  function After(s: State, run: seq<Step>): State
    requires Legal(s, run)
    decreases |run|
  {
    if run == [] then s else After(Next(s, run[0]), run[1..])
  }

  // ----- Nobody is left waiting for bits that are set -----

  /** A waiter is blocked, its item says what for, and its condition is false. */
  ghost predicate WaiterOk(s: State, w: Waiter) {
    && PcOf(s, w.task).Blocked?
    && w.value == ItemValue(PcOf(s, w.task).waitFor, PcOf(s, w.task).clear, PcOf(s, w.task).all)
    && !Satisfied(w, s.group.bits)
  }

  /** An item taken off the list by bits holds bits that meet its task's condition. */
  ghost predicate ItemOk(pc: Pc, value: Bits) {
    pc.Blocked? && UNBLOCKED_DUE_TO_BIT_SET in value ==> TestWaitCondition(Events(value), pc.waitFor, pc.all)
  }

  ghost predicate PcOk(s: State, t: Task, pc: Pc) {
    match pc
    case Out => true
    case Setting(toSet, waitFor, _, original) =>
      s.suspendedBy == Some(t) && original == s.group.bits && NoControl(toSet) && NoControl(waitFor)
    case Deciding(toSet, waitFor, _, original) =>
      && s.suspendedBy == Some(t) && s.group.bits <= original + toSet && NoControl(original + toSet)
      && NoControl(waitFor)
    case Blocked(waitFor, _, _) =>
      NoControl(waitFor) && (!Waits(s.group, t) ==> t in s.group.values && ItemOk(pc, s.group.values[t]))
  }

  ghost predicate Sound(s: State) {
    && NoControl(s.group.bits)
    && (forall w :: w in s.group.waiting ==> WaiterOk(s, w))
    && (forall i, j :: 0 <= i < j < |s.group.waiting| ==> s.group.waiting[i].task != s.group.waiting[j].task)
    && (forall t :: t in s.pcs ==> PcOk(s, t, s.pcs[t]))
    && s.depth <= 1 && (s.depth == 1 <==> s.suspendedBy.Some?)
    && (s.depth == 1 ==> PcOf(s, s.suspendedBy.value).Setting? || PcOf(s, s.suspendedBy.value).Deciding?)
  }

  /** What t does leaves alone what the soundness of the other tasks rests on. */
  lemma OthersOk(s: State, s': State, t: Task)
    requires Sound(s) && MayRun(s, t) && NoControl(s'.group.bits)
    requires s'.pcs.Keys <= s.pcs.Keys + {t}
    requires forall u :: u in s.pcs && u != t ==> u in s'.pcs && s'.pcs[u] == s.pcs[u]
    requires s'.group.waiting == s.group.waiting && s'.group.values == s.group.values
    requires s'.group.bits <= s.group.bits
    requires !Waits(s.group, t) && (t in s'.pcs ==> PcOk(s', t, s'.pcs[t]))
    requires s'.depth <= 1 && (s'.depth == 1 <==> s'.suspendedBy == Some(t))
      && (s'.depth == 0 <==> s'.suspendedBy == None)
    requires s'.depth == 1 ==> PcOf(s', t).Setting? || PcOf(s', t).Deciding?
    ensures Sound(s')
  {
    forall w | w in s'.group.waiting ensures WaiterOk(s', w) {
      assert WaiterOk(s, w);
      FewerBits(w, s.group.bits, s'.group.bits);
    }
    forall u | u in s'.pcs ensures PcOk(s', u, s'.pcs[u]) {
      if u != t { assert PcOk(s, u, s.pcs[u]); }
    }
  }

  lemma NotWaiting(s: State, t: Task)
    requires Sound(s) && !PcOf(s, t).Blocked?
    ensures !Waits(s.group, t)
  {
    forall w | w in s.group.waiting ensures w.task != t { assert WaiterOk(s, w); }
  }

  /** A task whose condition is false goes to the end of the list. */
  lemma BlockSound(s: State, t: Task, waitFor: Bits, clear: bool, all: bool)
    requires Sound(s) && MayRun(s, t) && !PcOf(s, t).Blocked? && NoControl(waitFor)
    requires !TestWaitCondition(s.group.bits, waitFor, all)
    ensures Sound(Block(s, t, waitFor, clear, all).(depth := 0, suspendedBy := None))
  {
    var s' := Block(s, t, waitFor, clear, all).(depth := 0, suspendedBy := None);
    NotWaiting(s, t);
    assert Events(ItemValue(waitFor, clear, all)) == waitFor;
    assert WaiterOk(s', Waiter(t, ItemValue(waitFor, clear, all)));
    forall w | w in s'.group.waiting && w.task != t ensures WaiterOk(s', w) { assert WaiterOk(s, w); }
    forall u | u in s'.pcs ensures PcOk(s', u, s'.pcs[u]) { BlockOthers(s, s', t, ItemValue(waitFor, clear, all), u); }
  }

  lemma BlockOthers(s: State, s': State, t: Task, value: Bits, u: Task)
    requires Sound(s) && MayRun(s, t) && u in s'.pcs && PcOf(s', t).Blocked? && NoControl(PcOf(s', t).waitFor)
    requires s'.pcs == s.pcs[t := PcOf(s', t)] && s'.group.bits == s.group.bits && s'.group.values == s.group.values
    requires s'.group.waiting == s.group.waiting + [Waiter(t, value)]
    ensures PcOk(s', u, s'.pcs[u])
  {
    if u == t {
      assert Waiter(t, value) in s'.group.waiting;
    } else {
      assert PcOk(s, u, s.pcs[u]);
      assert Waits(s.group, u) ==> Waits(s'.group, u);
    }
  }

  lemma SetSound(s: State, t: Task, toSet: Bits, pc: Pc)
    requires Sound(s) && MayRun(s, t) && NoControl(toSet) && !PcOf(s, t).Blocked?
    requires pc == PcOf(s, t) == Out || (PcOf(s, t).Setting? && toSet == PcOf(s, t).toSet
      && pc == Deciding(toSet, PcOf(s, t).waitFor, PcOf(s, t).blockTime, PcOf(s, t).original))
    ensures Sound(Goto(Set(s, t, toSet), t, pc))
  {
    var s' := Goto(Set(s, t, toSet), t, pc);
    KeptDistinct(s.group.waiting, s.group.bits + toSet);
    NotWaiting(s, t);
    forall w | w in s'.group.waiting ensures WaiterOk(s', w) {
      KeptIn(s.group.waiting, s.group.bits + toSet, w);
      assert WaiterOk(s, w);
      StaysOrGoes(s.group, toSet, w);
    }
    forall u | u in s'.pcs ensures PcOk(s', u, s'.pcs[u]) {
      if u != t { SetOthers(s, s', t, toSet, u); }
    }
  }

  lemma SetOthers(s: State, s': State, t: Task, toSet: Bits, u: Task)
    requires Sound(s) && MayRun(s, t) && u in s.pcs && u != t && NoControl(toSet)
    requires s'.group == EventBits.SetBits(s.group, toSet)
    ensures PcOk(s', u, s.pcs[u])
  {
    assert PcOk(s, u, s.pcs[u]);
    if s.pcs[u].Blocked? && !Waits(s'.group, u) && Waits(s.group, u) {
      var w :| w in s.group.waiting && w.task == u;
      assert WaiterOk(s, w);
      StaysOrGoes(s.group, toSet, w);
      ItemsMask(s.pcs[u], s.group.bits + toSet);
    }
  }

  /** The control bits do not disturb the bits waited for, or handed over. */
  lemma ItemsMask(pc: Pc, now: Bits)
    requires pc.Blocked? && NoControl(pc.waitFor) && NoControl(now)
    ensures Events(ItemValue(pc.waitFor, pc.clear, pc.all)) == pc.waitFor && Events(Delivery(now)) == now
  {
  }

  lemma TimeOutSound(s: State, t: Task, at: nat)
    requires Sound(s) && Enabled(s, TimeOut(t, at))
    ensures Sound(Next(s, TimeOut(t, at)))
  {
    var s' := Next(s, TimeOut(t, at));
    var was, now := s.group.waiting, s'.group.waiting;
    assert WaiterOk(s, was[at]);
    assert PcOk(s, t, s.pcs[t]);
    assert forall i :: 0 <= i < |now| ==> now[i] == was[if i < at then i else i + 1];
    forall w | w in now ensures WaiterOk(s', w) { assert WaiterOk(s, w); }
    forall u | u in s'.pcs ensures PcOk(s', u, s'.pcs[u]) {
      assert PcOk(s, u, s.pcs[u]);
      if u != t && Waits(s.group, u) { OthersStay(was, at, u); }
    }
  }

  lemma OthersStay(was: seq<Waiter>, at: nat, u: Task)
    requires at < |was| && was[at].task != u && exists w :: w in was && w.task == u
    ensures exists w :: w in was[..at] + was[at + 1..] && w.task == u
  {
    var w :| w in was && w.task == u;
    assert was == was[..at] + [was[at]] + was[at + 1..];
    assert w in was[..at] + was[at + 1..];
  }

  lemma SoundKept(s: State, e: Step)
    requires Sound(s) && Enabled(s, e)
    ensures Sound(Next(s, e))
  {
    var s' := Next(s, e);
    if e.t in s.pcs { assert PcOk(s, e.t, s.pcs[e.t]); }
    if e.TimeOut? {
      TimeOutSound(s, e.t, e.at);
    } else if e.SetBits? {
      SetSound(s, e.t, e.toSet, Out);
    } else if e.SyncSet? {
      SetSound(s, e.t, PcOf(s, e.t).toSet, PcOf(s', e.t));
    } else if e.WaitBits? {
      SoundKeptByWait(s, e);
    } else if e.SyncDecide? {
      SoundKeptByDecision(s, e.t);
    } else {
      if !e.RunAgain? { NotWaiting(s, e.t); }
      OthersOk(s, s', e.t);
    }
  }

  lemma SoundKeptByWait(s: State, e: Step)
    requires Sound(s) && Enabled(s, e) && e.WaitBits?
    ensures Sound(Next(s, e))
  {
    NotWaiting(s, e.t);
    if !TestWaitCondition(s.group.bits, e.waitFor, e.all) && e.blockTime {
      BlockSound(s, e.t, e.waitFor, e.clear, e.all);
    } else {
      OthersOk(s, Next(s, e), e.t);
    }
  }

  lemma SoundKeptByDecision(s: State, t: Task)
    requires Sound(s) && Enabled(s, SyncDecide(t))
    ensures Sound(Next(s, SyncDecide(t)))
  {
    var pc := s.pcs[t];
    assert PcOk(s, t, pc);
    NotWaiting(s, t);
    if !(pc.waitFor <= pc.original + pc.toSet) && pc.blockTime {
      BlockSound(s, t, pc.waitFor, true, true);
    } else {
      OthersOk(s, Next(s, SyncDecide(t)), t);
    }
  }

  lemma {:induction false} SoundRun(s: State, run: seq<Step>)
    requires Sound(s) && Legal(s, run)
    ensures Sound(After(s, run))
    decreases |run|
  {
    if run != [] {
      SoundKept(s, run[0]);
      SoundRun(Next(s, run[0]), run[1..]);
    }
  }

  /** Over every interleaving: of the bits that a task on the list waits for, one is missing if it waits for all, and
      none is set if it waits for any. A task that went off the list for its bits returns them all, or one of them at
      least. No control bit is ever set. */
  lemma NobodyLeftBlocked(run: seq<Step>, t: Task)
    requires Legal(Initial, run)
    ensures var s := After(Initial, run);
      && (forall b: Bit :: b >= 24 ==> b !in s.group.bits)
      && (Waits(s.group, t) ==> PcOf(s, t).Blocked?)
      && (Waits(s.group, t) ==>
            if PcOf(s, t).all then exists b: Bit :: b in PcOf(s, t).waitFor && b !in s.group.bits
               else forall b: Bit :: b in PcOf(s, t).waitFor ==> b !in s.group.bits)
      && (Enabled(s, RunAgain(t)) && UNBLOCKED_DUE_TO_BIT_SET in s.group.values[t] ==>
            var got := Returned(Next(s, RunAgain(t)), t);
            got != [] &&
            if PcOf(s, t).all then forall b: Bit :: b in PcOf(s, t).waitFor ==> b in got[|got| - 1]
               else exists b: Bit :: b in PcOf(s, t).waitFor && b in got[|got| - 1])
  {
    ConditionsHold(run, t);
    var s := After(Initial, run);
    if PcOf(s, t).Blocked? {
      var waitFor, all := PcOf(s, t).waitFor, PcOf(s, t).all;
      ConditionIs(s.group.bits, waitFor, all);
      if Enabled(s, RunAgain(t)) && UNBLOCKED_DUE_TO_BIT_SET in s.group.values[t] {
        var got := Returned(Next(s, RunAgain(t)), t);
        ConditionIs(got[|got| - 1], waitFor, all);
      }
    }
  }

  lemma ConditionsHold(run: seq<Step>, t: Task)
    requires Legal(Initial, run)
    ensures var s := After(Initial, run);
      && NoControl(s.group.bits)
      && (Waits(s.group, t) ==>
            PcOf(s, t).Blocked? && !TestWaitCondition(s.group.bits, PcOf(s, t).waitFor, PcOf(s, t).all))
      && (Enabled(s, RunAgain(t)) && UNBLOCKED_DUE_TO_BIT_SET in s.group.values[t] ==>
            var got := Returned(Next(s, RunAgain(t)), t);
            got != [] && TestWaitCondition(got[|got| - 1], PcOf(s, t).waitFor, PcOf(s, t).all))
  {
    SoundRun(Initial, run);
    var s := After(Initial, run);
    if t in s.pcs { assert PcOk(s, t, s.pcs[t]); }
    if w :| w in s.group.waiting && w.task == t {
      assert WaiterOk(s, w);
      ItemsMask(s.pcs[t], s.group.bits);
    }
  }
}
