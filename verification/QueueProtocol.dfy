/** One of the two event lists of a queue, with the lock counter that stands in for it while the queue is
  locked: cTxLock for the tasks waiting to receive, cRxLock for the tasks waiting to send. */
module EventList {
  type Task = nat

  const UNLOCKED := -1

  /** wait: the event list, most urgent task first. woken: tasks an event took off the list that have not
      run since. */
  datatype Side = Side(lock: int, wait: seq<Task>, woken: set<Task>)

  /** The conversion to int8_t that an incremented lock counter goes through. */
  function Int8(x: int): int {
    (x + 128) % 256 - 128
  }

  /** xTaskRemoveFromEventList, when the list is not empty. */
  function WakeOne(s: Side): Side {
    if s.wait == [] then s else s.(wait := s.wait[1..], woken := s.woken + {s.wait[0]})
  }

  /** What an interrupt does about the list after adding or removing an item. */
  function Signal(s: Side): Side {
    if s.lock == UNLOCKED then WakeOne(s) else s.(lock := Int8(s.lock + 1))
  }

  function Lock(s: Side): Side {
    if s.lock == UNLOCKED then s.(lock := 0) else s
  }

  /** One of the two critical sections of prvUnlockQueue: wake a task for every event counted, while there
      are tasks to wake. */
  function Unlock(s: Side): Side
    decreases |s.wait|
  {
    if s.lock > 0 && s.wait != [] then Unlock(WakeOne(s).(lock := s.lock - 1)) else s.(lock := UNLOCKED)
  }

  /** vTaskPlaceOnEventList: where depends on priorities, so every position is considered. */
  function Place(s: Side, t: Task, at: nat): Side
    requires at <= |s.wait|
  {
    s.(wait := s.wait[..at] + [t] + s.wait[at..])
  }

  /** A task that has run no longer counts as woken. */
  function Rerun(s: Side, t: Task): Side {
    s.(woken := s.woken - {t})
  }

  /** Its block time over, a task leaves the list without an event. */
  function Leave(s: Side, i: nat): Side
    requires i < |s.wait|
  {
    s.(wait := s.wait[..i] + s.wait[i + 1..])
  }

  ghost predicate Tidy(s: Side) {
    && (forall i, j :: 0 <= i < j < |s.wait| ==> s.wait[i] != s.wait[j])
    && forall t :: t in s.wait ==> t !in s.woken
  }

  /** Enough tasks are awake, or counted to be woken, for what is available. */
  ghost predicate Covered(s: Side, available: int) {
    available <= |s.woken| + if s.lock > 0 then s.lock else 0
  }

  /** No lost wake-up: while a task still waits, what is available is covered. */
  ghost predicate Sound(s: Side, available: int) {
    s.wait != [] ==> Covered(s, available)
  }

  /** Nobody has come on the list, and who is awake was awake or on it. */
  ghost predicate Fewer(s: Side, s': Side) {
    && (forall t :: t in s'.wait ==> t in s.wait)
    && (forall t :: t in s'.woken ==> t in s.woken || t in s.wait)
  }

  lemma WakeOneTidy(s: Side)
    requires Tidy(s)
    ensures Tidy(WakeOne(s)) && Fewer(s, WakeOne(s))
  {
    if s.wait != [] {
      assert forall i :: 0 <= i < |s.wait| - 1 ==> s.wait[1..][i] == s.wait[i + 1];
    }
  }

  /** An event accounts for one more item. */
  lemma WakeOneSound(s: Side, available: int)
    requires Tidy(s) && Sound(s, available)
    ensures Sound(WakeOne(s), available + 1)
  {
    if s.wait != [] { assert s.wait[0] !in s.woken; }
  }

  /** An interrupt's event is accounted for too, unless the lock counter overflows. */
  lemma SignalSound(s: Side, available: int)
    requires Tidy(s) && Sound(s, available) && -1 <= s.lock < 127
    ensures Tidy(Signal(s)) && Fewer(s, Signal(s)) && Sound(Signal(s), available + 1)
    ensures -1 <= Signal(s).lock && (Signal(s).lock == UNLOCKED <==> s.lock == UNLOCKED)
  {
    WakeOneTidy(s);
    WakeOneSound(s, available);
  }

  lemma {:induction false} UnlockSound(s: Side, available: int)
    requires Tidy(s) && Sound(s, available) && s.lock >= -1
    ensures Tidy(Unlock(s)) && Sound(Unlock(s), available) && Unlock(s).lock == UNLOCKED
    ensures Fewer(s, Unlock(s))
    decreases |s.wait|
  {
    if s.lock > 0 && s.wait != [] {
      var next := WakeOne(s).(lock := s.lock - 1);
      WakeOneTidy(s);
      assert s.wait[0] !in s.woken;
      UnlockSound(next, available);
    }
  }

  lemma PlaceTidy(s: Side, t: Task, at: nat)
    requires Tidy(s) && at <= |s.wait| && t !in s.wait && t !in s.woken
    ensures Tidy(Place(s, t, at))
    ensures forall u :: u in Place(s, t, at).wait <==> u == t || u in s.wait
  {
    PlacedHas(s.wait, t, at);
    PlacedApart(s.wait, t, at);
  }

  lemma PlacedHas(w: seq<Task>, t: Task, at: nat)
    requires at <= |w|
    ensures forall u :: u in w[..at] + [t] + w[at..] <==> u == t || u in w
  {
    assert w == w[..at] + w[at..];
  }

  lemma PlacedApart(w: seq<Task>, t: Task, at: nat)
    requires at <= |w| && t !in w && forall i, j :: 0 <= i < j < |w| ==> w[i] != w[j]
    ensures var placed := w[..at] + [t] + w[at..];
      forall i, j :: 0 <= i < j < |placed| ==> placed[i] != placed[j]
  {
    var placed := w[..at] + [t] + w[at..];
    forall i, j | 0 <= i < j < |placed| ensures placed[i] != placed[j] {
      assert w[..at] + w[at..] == w;
      assert i != at ==> placed[i] == w[if i < at then i else i - 1];
      assert j != at ==> placed[j] == w[if j < at then j else j - 1];
    }
  }

  lemma LeaveTidy(s: Side, i: nat)
    requires Tidy(s) && i < |s.wait|
    ensures Tidy(Leave(s, i))
    ensures forall u :: u in Leave(s, i).wait ==> u in s.wait && u != s.wait[i]
  {
    var w := Leave(s, i).wait;
    assert forall k :: 0 <= k < |w| ==> w[k] == s.wait[if k < i then k else k + 1];
  }

  /** A task that ran and took an item, or found none, leaves the rest covered. */
  lemma RerunSound(s: Side, t: Task, available: int)
    requires Tidy(s) && Sound(s, available)
    ensures Tidy(Rerun(s, t)) && Sound(Rerun(s, t), available - 1)
    ensures available <= 0 ==> Sound(Rerun(s, t), available)
  {
    if t in s.woken { assert |s.woken - {t}| == |s.woken| - 1; } else { assert s.woken - {t} == s.woken; }
  }
}

/** The blocking protocol of queue.c: tasks that send, receive and peek with a block time, and interrupts, on
  one queue. A step is one critical section, or one call that the scheduler suspension makes atomic. */
module QueueProtocol {
  import opened Wrappers
  import opened EventList

  /** xQueueReceive and xQueueSemaphoreTake; xQueuePeek; xQueueGenericSend, overwriting or not. */
  datatype Kind = Receive | Peek | Send(overwrite: bool)

  /** What follows the unlocking: the task is on an event list, or tries again, or its time is up. */
  datatype Then = Block | Retry | Expire

  /** Where a task stands in the for( ;; ) loop of its call. */
  datatype Pc =
    | Out
    | Top(k: Kind)                    // about to enter the critical section at the top of the loop
    | Suspending(k: Kind)             // nothing to be had: about to suspend the scheduler
    | Locking(k: Kind)                // about to lock the queue
    | Timing(k: Kind)                 // about to look at its block time
    | Checking(k: Kind)               // about to look at the queue again
    | Placing(k: Kind)                // about to go on the event list
    | UnlockingTx(k: Kind, next: Then)
    | UnlockingRx(k: Kind, next: Then)
    | Resuming(k: Kind, next: Then)
    | Blocked(k: Kind)
    | Rechecking(k: Kind)             // timed out: about to look whether the queue is still empty

  /** rx: the tasks waiting to receive, with cTxLock; tx: the tasks waiting to send, with cRxLock. */
  datatype State = State(
    length: nat, messages: nat, rx: Side, tx: Side,
    suspendedBy: Option<Task>, pcs: map<Task, Pc>)

  function PcOf(s: State, t: Task): Pc {
    if t in s.pcs then s.pcs[t] else Out
  }

  function Goto(s: State, t: Task, pc: Pc): State {
    s.(pcs := s.pcs[t := pc])
  }

  /** A new queue; a semaphore may start with a count. */
  function Init(length: nat, messages: nat): State {
    State(length, messages, Side(UNLOCKED, [], {}), Side(UNLOCKED, [], {}), None, map[])
  }

  datatype Step =
    | Call(t: Task, k: Kind)
    | Loop(t: Task, blockTime: bool)    // the critical section at the top; blockTime: xTicksToWait is not 0
    | Suspend(t: Task)
    | LockQueue(t: Task)
    | CheckTimeOut(t: Task, expired: bool)
    | CheckQueue(t: Task)
    | PlaceOnList(t: Task, at: nat)
    | UnlockTx(t: Task)
    | UnlockRx(t: Task)
    | Resume(t: Task)
    | RunAgain(t: Task)                 // a task no longer on the list is scheduled again
    | Recheck(t: Task)
    | TimeOut(t: Task, at: nat)         // the tick interrupt takes a task off its list
    | SendFromISR(overwrite: bool)      // also xQueueGiveFromISR
    | ReceiveFromISR
    | Reset(t: Task)                    // xQueueReset

  predicate Legal(s: State, run: seq<Step>)
    decreases |run|
  {
    run == [] || (Enabled(s, run[0]) && Legal(Next(s, run[0]), run[1..]))
  }

  /** The state after a run: any interleaving of the steps of tasks and interrupts. */
  function After(s: State, run: seq<Step>): State
    requires Legal(s, run)
    decreases |run|
  {
    if run == [] then s else After(Next(s, run[0]), run[1..])
  }

  /** An interrupt finds the lock counter of its side below the int8_t limit. */
  predicate Counts(s: State, e: Step) {
    (e.SendFromISR? ==> s.rx.lock < 127) && (e.ReceiveFromISR? ==> s.tx.lock < 127)
  }

  /** So it does all along the run: fewer than 128 interrupt operations in every locked period. */
  predicate CountedRun(s: State, run: seq<Step>)
    requires Legal(s, run)
    decreases |run|
  {
    run != [] ==> Counts(s, run[0]) && CountedRun(Next(s, run[0]), run[1..])
  }

  /** The event list a call of this kind waits on. */
  predicate WaitsToReceive(k: Kind) { !k.Send? }

  function SideOf(s: State, k: Kind): Side {
    if WaitsToReceive(k) then s.rx else s.tx
  }

  function WithSide(s: State, k: Kind, side: Side): State {
    if WaitsToReceive(k) then s.(rx := side) else s.(tx := side)
  }

  predicate CanSend(s: State, overwrite: bool) {
    s.messages < s.length || overwrite
  }

  /** uxMessagesWaiting after a send. */
  function Added(s: State, overwrite: bool): nat {
    if overwrite && s.messages > 0 then s.messages else s.messages + 1
  }

  /** While a task has suspended the scheduler no other task runs; interrupts do. */
  predicate MayRun(s: State, t: Task) {
    s.suspendedBy == None || s.suspendedBy == Some(t)
  }

  predicate Enabled(s: State, e: Step) {
    match e
    case Call(t, k) => MayRun(s, t) && PcOf(s, t) == Out && (k == Send(true) ==> s.length == 1)
    case Loop(t, _) => MayRun(s, t) && PcOf(s, t).Top?
    case Suspend(t) => MayRun(s, t) && PcOf(s, t).Suspending?
    case LockQueue(t) => PcOf(s, t).Locking?
    case CheckTimeOut(t, _) => PcOf(s, t).Timing?
    case CheckQueue(t) => PcOf(s, t).Checking?
    case PlaceOnList(t, at) => PcOf(s, t).Placing? && at <= |SideOf(s, PcOf(s, t).k).wait|
    case UnlockTx(t) => PcOf(s, t).UnlockingTx?
    case UnlockRx(t) => PcOf(s, t).UnlockingRx?
    case Resume(t) => PcOf(s, t).Resuming?
    case RunAgain(t) => MayRun(s, t) && PcOf(s, t).Blocked? && t !in SideOf(s, PcOf(s, t).k).wait
    case Recheck(t) => MayRun(s, t) && PcOf(s, t).Rechecking?
    case TimeOut(t, at) => s.suspendedBy == None && PcOf(s, t).Blocked?
      && at < |SideOf(s, PcOf(s, t).k).wait| && SideOf(s, PcOf(s, t).k).wait[at] == t
    case SendFromISR(overwrite) => overwrite ==> s.length == 1
    case ReceiveFromISR => true
    case Reset(t) => MayRun(s, t) && PcOf(s, t) == Out
  }

  /** The critical section at the top of the loop of xQueueReceive, xQueuePeek and xQueueGenericSend. */
  function LoopTop(s: State, t: Task, blockTime: bool): State
    requires PcOf(s, t).Top?
  {
    var k := PcOf(s, t).k;
    var s' := WithSide(s, k, Rerun(SideOf(s, k), t));
    var failed := Goto(s', t, if blockTime then Suspending(k) else Out);
    match k
    case Receive =>
      if s.messages > 0 then Goto(s'.(messages := s.messages - 1, tx := WakeOne(s'.tx)), t, Out) else failed
    case Peek =>
      if s.messages > 0 then Goto(s'.(rx := WakeOne(s'.rx)), t, Out) else failed
    case Send(overwrite) =>
      if CanSend(s, overwrite) then Goto(s'.(messages := Added(s, overwrite), rx := WakeOne(s'.rx)), t, Out)
      else failed
  }

  function Next(s: State, e: Step): State
    requires Enabled(s, e)
  {
    match e
    case Call(t, k) => Goto(s, t, Top(k))
    case Loop(t, blockTime) => LoopTop(s, t, blockTime)
    case Suspend(t) => Goto(s.(suspendedBy := Some(t)), t, Locking(PcOf(s, t).k))
    case LockQueue(t) => Goto(s.(rx := Lock(s.rx), tx := Lock(s.tx)), t, Timing(PcOf(s, t).k))
    case CheckTimeOut(t, expired) =>
      var k := PcOf(s, t).k;
      Goto(s, t, if expired then UnlockingTx(k, Expire) else Checking(k))
    case CheckQueue(t) =>
      var k := PcOf(s, t).k;
      Goto(s, t, if s.messages == (if k.Send? then s.length else 0) then Placing(k) else UnlockingTx(k, Retry))
    case PlaceOnList(t, at) =>
      var k := PcOf(s, t).k;
      Goto(WithSide(s, k, Place(SideOf(s, k), t, at)), t, UnlockingTx(k, Block))
    case UnlockTx(t) => Goto(s.(rx := Unlock(s.rx)), t, UnlockingRx(PcOf(s, t).k, PcOf(s, t).next))
    case UnlockRx(t) => Goto(s.(tx := Unlock(s.tx)), t, Resuming(PcOf(s, t).k, PcOf(s, t).next))
    case Resume(t) =>
      var k := PcOf(s, t).k;
      var pc := match PcOf(s, t).next
        case Block => Blocked(k)
        case Retry => Top(k)
        case Expire => if k.Send? then Out else Rechecking(k);
      Goto(s.(suspendedBy := None), t, pc)
    case RunAgain(t) => Goto(s, t, Top(PcOf(s, t).k))
    case Recheck(t) => Goto(s, t, if s.messages == 0 then Out else Top(PcOf(s, t).k))
    case TimeOut(t, at) => WithSide(s, PcOf(s, t).k, Leave(SideOf(s, PcOf(s, t).k), at))
    case SendFromISR(overwrite) =>
      if CanSend(s, overwrite) then s.(messages := Added(s, overwrite), rx := Signal(s.rx)) else s
    case ReceiveFromISR => if s.messages > 0 then s.(messages := s.messages - 1, tx := Signal(s.tx)) else s
    case Reset(t) => s.(messages := 0, rx := s.rx.(lock := UNLOCKED), tx := WakeOne(s.tx.(lock := UNLOCKED)))
  }

  // ----- The invariant -----

  predicate HoldsScheduler(pc: Pc) {
    pc.Locking? || pc.Timing? || pc.Checking? || pc.Placing? || pc.UnlockingTx? || pc.UnlockingRx? || pc.Resuming?
  }

  /** The task is, or may still be, on the event list of a call of kind k. */
  predicate OnList(pc: Pc, k: Kind) {
    match pc
    case Blocked(j) => WaitsToReceive(j) == WaitsToReceive(k)
    case UnlockingTx(j, next) => next == Block && WaitsToReceive(j) == WaitsToReceive(k)
    case UnlockingRx(j, next) => next == Block && WaitsToReceive(j) == WaitsToReceive(k)
    case Resuming(j, next) => next == Block && WaitsToReceive(j) == WaitsToReceive(k)
    case _ => false
  }

  predicate RunningAgain(pc: Pc, k: Kind) {
    pc.Top? && WaitsToReceive(pc.k) == WaitsToReceive(k)
  }

  /** A task on an event list, or woken from it, is in the matching part of its call. */
  ghost predicate ListsMatch(s: State) {
    && (forall t :: t in s.rx.wait ==> OnList(PcOf(s, t), Receive))
    && (forall t :: t in s.tx.wait ==> OnList(PcOf(s, t), Send(false)))
    && (forall t :: t in s.rx.woken ==> OnList(PcOf(s, t), Receive) || RunningAgain(PcOf(s, t), Receive))
    && (forall t :: t in s.tx.woken ==> OnList(PcOf(s, t), Send(false)) || RunningAgain(PcOf(s, t), Send(false)))
  }

  predicate RxUnlockedAt(pc: Pc) { !HoldsScheduler(pc) || pc.Locking? || pc.UnlockingRx? || pc.Resuming? }
  predicate TxUnlockedAt(pc: Pc) { !HoldsScheduler(pc) || pc.Locking? || pc.Resuming? }

  ghost predicate LocksAt(s: State, pc: Pc) {
    && s.rx.lock >= -1 && s.tx.lock >= -1
    && (s.rx.lock == UNLOCKED <==> RxUnlockedAt(pc))
    && (s.tx.lock == UNLOCKED <==> TxUnlockedAt(pc))
  }

  /** How far the task holding the scheduler has got decides whether each half of the queue is locked. */
  ghost predicate LocksMatch(s: State) {
    && (forall t: Task :: HoldsScheduler(PcOf(s, t)) <==> s.suspendedBy == Some(t))
    && LocksAt(s, HolderPc(s))
  }

  function HolderPc(s: State): Pc {
    match s.suspendedBy case None => Out case Some(t) => PcOf(s, t)
  }

  /** A task about to go on a list saw nothing to be had; what came since has been counted. */
  ghost predicate PlacementCovered(s: State) {
    HolderPc(s).Placing? ==>
      if HolderPc(s).k.Send? then Covered(s.tx, s.length - s.messages) else Covered(s.rx, s.messages)
  }

  ghost predicate Shape(s: State) {
    && s.messages <= s.length && s.length > 0
    && Tidy(s.rx) && Tidy(s.tx) && ListsMatch(s) && LocksMatch(s)
    && forall t :: t in s.pcs && !s.pcs[t].Out? && s.pcs[t].k == Send(true) ==> s.length == 1
  }

  /** No receiver sleeps on a message that no woken task, and no counted event, is there to fetch. */
  ghost predicate NoLostReceiver(s: State) { Sound(s.rx, s.messages) }

  ghost predicate NoLostSender(s: State) { Sound(s.tx, s.length - s.messages) }

  // ----- Every step keeps it -----

  /** The lists of s' hold tasks of the lists of s; t, and nobody else, may have come on or moved on. */
  ghost predicate ListsFrom(s: State, s': State, t: Task, pc: Pc) {
    && s'.pcs == s.pcs[t := pc]
    && (forall u :: u in s'.rx.wait ==> if u == t then OnList(pc, Receive) else u in s.rx.wait)
    && (forall u :: u in s'.tx.wait ==> if u == t then OnList(pc, Send(false)) else u in s.tx.wait)
    && (forall u :: u in s'.rx.woken ==>
          if u == t then OnList(pc, Receive) || RunningAgain(pc, Receive) else u in s.rx.woken || u in s.rx.wait)
    && (forall u :: u in s'.tx.woken ==>
          if u == t then OnList(pc, Send(false)) || RunningAgain(pc, Send(false))
            else u in s.tx.woken || u in s.tx.wait)
  }

  lemma ListsKept(s: State, s': State, t: Task, pc: Pc)
    requires ListsMatch(s) && ListsFrom(s, s', t, pc)
    ensures ListsMatch(s')
  {
    assert forall u: Task :: PcOf(s', u) == if u == t then pc else PcOf(s, u);
  }

  /** A step of task t that takes it to pc. */
  lemma LocksKept(s: State, s': State, t: Task, pc: Pc)
    requires LocksMatch(s) && MayRun(s, t) && s'.pcs == s.pcs[t := pc]
    requires s'.suspendedBy == if HoldsScheduler(pc) then Some(t) else None
    requires LocksAt(s', pc)
    ensures LocksMatch(s')
  {
    assert forall u: Task :: PcOf(s', u) == if u == t then pc else PcOf(s, u);
  }

  lemma LoopTidy(s: State, t: Task, blockTime: bool)
    requires Tidy(s.rx) && Tidy(s.tx) && PcOf(s, t).Top?
    ensures Tidy(LoopTop(s, t, blockTime).rx) && Tidy(LoopTop(s, t, blockTime).tx)
    ensures Fewer(s.rx, LoopTop(s, t, blockTime).rx) && Fewer(s.tx, LoopTop(s, t, blockTime).tx)
    ensures t !in SideOf(LoopTop(s, t, blockTime), PcOf(s, t).k).woken || t in SideOf(s, PcOf(s, t).k).wait
  {
    var k := PcOf(s, t).k;
    var s' := WithSide(s, k, Rerun(SideOf(s, k), t));
    assert Tidy(Rerun(SideOf(s, k), t));
    WakeOneTidy(s'.rx);
    WakeOneTidy(s'.tx);
  }

  /** A step of a task that takes it to pc, in the terms the invariant needs. */
  lemma MoveKept(s: State, s': State, t: Task, pc: Pc)
    requires Shape(s) && MayRun(s, t) && ListsFrom(s, s', t, pc) && Tidy(s'.rx) && Tidy(s'.tx) && LocksAt(s', pc)
    requires s'.suspendedBy == if HoldsScheduler(pc) then Some(t) else None
    requires s'.length == s.length && s'.messages <= s.length
    requires !pc.Out? && pc.k == Send(true) ==> s.length == 1
    ensures Shape(s')
  {
    ListsKept(s, s', t, pc);
    LocksKept(s, s', t, pc);
  }

  /** A step that puts no task on a list. */
  lemma FewerMove(s: State, s': State, t: Task, pc: Pc)
    requires Shape(s) && s'.pcs == s.pcs[t := pc] && MayRun(s, t) && Tidy(s'.rx) && Tidy(s'.tx) && LocksAt(s', pc)
    requires Fewer(s.rx, s'.rx) && Fewer(s.tx, s'.tx)
    requires OnList(PcOf(s, t), Receive) ==> OnList(pc, Receive)
    requires OnList(PcOf(s, t), Send(false)) ==> OnList(pc, Send(false))
    requires t in s'.rx.woken ==> OnList(pc, Receive) || RunningAgain(pc, Receive)
    requires t in s'.tx.woken ==> OnList(pc, Send(false)) || RunningAgain(pc, Send(false))
    requires s'.suspendedBy == if HoldsScheduler(pc) then Some(t) else None
    requires s'.length == s.length && s'.messages <= s.length
    requires !pc.Out? && pc.k == Send(true) ==> s.length == 1
    ensures Shape(s')
  {
    MoveKept(s, s', t, pc);
  }

  /** A step that moves no task within its call. */
  lemma StayKept(s: State, s': State)
    requires Shape(s) && s'.pcs == s.pcs && s'.suspendedBy == s.suspendedBy
    requires Tidy(s'.rx) && Tidy(s'.tx) && LocksAt(s', HolderPc(s))
    requires Fewer(s.rx, s'.rx) && Fewer(s.tx, s'.tx)
    requires s'.length == s.length && s'.messages <= s.length
    ensures Shape(s')
  {
    assert forall u: Task :: PcOf(s', u) == PcOf(s, u);
  }

  lemma ShapeKept(s: State, e: Step)
    requires Shape(s) && Enabled(s, e) && Counts(s, e)
    ensures Shape(Next(s, e))
  {
    if e.Loop? {
      ShapeKeptByLoop(s, e.t, e.blockTime);
    } else if e.PlaceOnList? {
      ShapeKeptByPlacement(s, e.t, e.at);
    } else if e.UnlockTx? || e.UnlockRx? {
      ShapeKeptByUnlock(s, e);
    } else if e.TimeOut? || e.SendFromISR? || e.ReceiveFromISR? || e.Reset? {
      ShapeKeptByEvent(s, e);
    } else {
      MoveKept(s, Next(s, e), e.t, PcOf(Next(s, e), e.t));
    }
  }

  lemma ShapeKeptByLoop(s: State, t: Task, blockTime: bool)
    requires Shape(s) && Enabled(s, Loop(t, blockTime))
    ensures Shape(LoopTop(s, t, blockTime))
  {
    var s' := LoopTop(s, t, blockTime);
    LoopTidy(s, t, blockTime);
    LoopMoves(s, t, blockTime);
    FewerMove(s, s', t, PcOf(s', t));
  }

  lemma LoopMoves(s: State, t: Task, blockTime: bool)
    requires Shape(s) && Enabled(s, Loop(t, blockTime))
    ensures var s' := LoopTop(s, t, blockTime);
      && s'.pcs == s.pcs[t := PcOf(s', t)] && (PcOf(s', t).Out? || PcOf(s', t) == Suspending(PcOf(s, t).k))
      && s'.suspendedBy == s.suspendedBy == None && s'.length == s.length && s'.messages <= s.length
      && s'.rx.lock == s.rx.lock && s'.tx.lock == s.tx.lock
  {
  }

  lemma ShapeKeptByPlacement(s: State, t: Task, at: nat)
    requires Shape(s) && Enabled(s, PlaceOnList(t, at))
    ensures Shape(Next(s, PlaceOnList(t, at)))
  {
    var s', k := Next(s, PlaceOnList(t, at)), PcOf(s, t).k;
    PlaceTidy(SideOf(s, k), t, at);
    MoveKept(s, s', t, UnlockingTx(k, Block));
  }

  lemma ShapeKeptByUnlock(s: State, e: Step)
    requires Shape(s) && Enabled(s, e) && (e.UnlockTx? || e.UnlockRx?)
    ensures Shape(Next(s, e))
  {
    var pc := PcOf(s, e.t);
    if e.UnlockTx? {
      UnlockSound(s.rx, 0);
      FewerMove(s, Next(s, e), e.t, UnlockingRx(pc.k, pc.next));
    } else {
      UnlockSound(s.tx, 0);
      FewerMove(s, Next(s, e), e.t, Resuming(pc.k, pc.next));
    }
  }

  lemma ShapeKeptByEvent(s: State, e: Step)
    requires Shape(s) && Enabled(s, e) && Counts(s, e)
      && (e.TimeOut? || e.SendFromISR? || e.ReceiveFromISR? || e.Reset?)
    ensures Shape(Next(s, e))
  {
    if e.TimeOut? {
      LeaveTidy(SideOf(s, PcOf(s, e.t).k), e.at);
      StayKept(s, Next(s, e));
    } else if e.Reset? {
      WakeOneTidy(s.tx);
      StayKept(s, Next(s, e));
    } else {
      ShapeKeptByISR(s, e);
    }
  }

  lemma ShapeKeptByISR(s: State, e: Step)
    requires Shape(s) && Enabled(s, e) && Counts(s, e) && (e.SendFromISR? || e.ReceiveFromISR?)
    ensures Shape(Next(s, e))
  {
    if e.SendFromISR? {
      SignalSound(s.rx, 0);
    } else {
      SignalSound(s.tx, 0);
    }
    StayKept(s, Next(s, e));
  }

  /** What every reachable state satisfies. */
  ghost predicate Safe(s: State) {
    Shape(s) && PlacementCovered(s) && NoLostReceiver(s)
  }

  lemma PlacementKept(s: State, e: Step)
    requires Shape(s) && PlacementCovered(s) && Enabled(s, e) && Counts(s, e)
    ensures PlacementCovered(Next(s, e))
  {
    if e.SendFromISR? || e.ReceiveFromISR? {
      PlacementKeptByISR(s, e);
    } else if !e.CheckQueue? {
      NobodyAboutToPlace(s, e);
    }
  }

  lemma NobodyAboutToPlace(s: State, e: Step)
    requires Shape(s) && Enabled(s, e) && !e.SendFromISR? && !e.ReceiveFromISR? && !e.CheckQueue?
    ensures !HolderPc(Next(s, e)).Placing?
  {
  }

  lemma PlacementKeptByISR(s: State, e: Step)
    requires Shape(s) && PlacementCovered(s) && Enabled(s, e) && Counts(s, e) && (e.SendFromISR? || e.ReceiveFromISR?)
    ensures PlacementCovered(Next(s, e))
  {
    var s' := Next(s, e);
    assert HolderPc(s') == HolderPc(s);
    if HolderPc(s).Placing? {
      assert s.rx.lock >= 0 && s.tx.lock >= 0;
    }
  }

  lemma ReceiversKept(s: State, e: Step)
    requires Safe(s) && Enabled(s, e) && Counts(s, e)
    ensures NoLostReceiver(Next(s, e))
  {
    if e.Loop? {
      ReceiversKeptByLoop(s, e.t, e.blockTime);
    } else if e.UnlockTx? {
      UnlockSound(s.rx, s.messages);
    } else if e.SendFromISR? {
      SignalSound(s.rx, s.messages);
    }
  }

  lemma ReceiversKeptByLoop(s: State, t: Task, blockTime: bool)
    requires Tidy(s.rx) && NoLostReceiver(s) && PcOf(s, t).Top?
    ensures NoLostReceiver(LoopTop(s, t, blockTime))
  {
    var k := PcOf(s, t).k;
    if k.Send? {
      WakeOneSound(s.rx, s.messages);
    } else {
      RerunSound(s.rx, t, s.messages);
      WakeOneSound(Rerun(s.rx, t), s.messages - 1);
    }
  }

  lemma SendersKept(s: State, e: Step)
    requires Shape(s) && PlacementCovered(s) && NoLostSender(s) && Enabled(s, e) && Counts(s, e) && !e.Reset?
    ensures NoLostSender(Next(s, e))
  {
    if e.Loop? {
      SendersKeptByLoop(s, e.t, e.blockTime);
    } else if e.UnlockRx? {
      UnlockSound(s.tx, s.length - s.messages);
    } else if e.ReceiveFromISR? {
      SignalSound(s.tx, s.length - s.messages);
    }
  }

  lemma SendersKeptByLoop(s: State, t: Task, blockTime: bool)
    requires Tidy(s.tx) && s.messages <= s.length && NoLostSender(s) && PcOf(s, t).Top?
    requires PcOf(s, t).k == Send(true) ==> s.length == 1
    ensures NoLostSender(LoopTop(s, t, blockTime))
  {
    var k := PcOf(s, t).k;
    if k.Send? {
      RerunSound(s.tx, t, s.length - s.messages);
    } else {
      WakeOneSound(s.tx, s.length - s.messages);
    }
  }

  /** No lost wake-up, over every interleaving; for senders too, unless the queue is reset. */
  lemma {:induction false} NoLostWakeUp(s: State, run: seq<Step>)
    requires Safe(s) && Legal(s, run) && CountedRun(s, run)
    ensures Safe(After(s, run))
    ensures NoLostSender(s) && (forall e :: e in run ==> !e.Reset?) ==> NoLostSender(After(s, run))
    decreases |run|
  {
    if run != [] {
      ShapeKept(s, run[0]);
      PlacementKept(s, run[0]);
      ReceiversKept(s, run[0]);
      if NoLostSender(s) && !run[0].Reset? { SendersKept(s, run[0]); }
      NoLostWakeUp(Next(s, run[0]), run[1..]);
    }
  }

  lemma InitSafe(length: nat, messages: nat)
    requires 0 < length && messages <= length
    ensures Safe(Init(length, messages)) && NoLostSender(Init(length, messages))
  {
  }

  /** A task woken from the receivers' list that is still on its way back to the top of its loop. */
  ghost predicate DueToLook(s: State, t: Task) {
    PcOf(s, t).Top? || (OnList(PcOf(s, t), Receive) && t !in s.rx.wait)
  }

  /** In any reachable state with the queue unlocked, each task an event woke is still due to look at the queue
    again, and there are at least as many of them as there are messages for the tasks still waiting; once
    they all have looked, a waiting receiver means an empty queue and, without resets, a waiting sender a
    full one. */
  lemma NobodySleepsOnAMessage(length: nat, messages: nat, run: seq<Step>)
    requires 0 < length && messages <= length && Legal(Init(length, messages), run)
    requires CountedRun(Init(length, messages), run)
    ensures var s := After(Init(length, messages), run);
      && (s.rx.lock == UNLOCKED && s.rx.wait != [] ==> s.messages <= |s.rx.woken|)
      && (s.rx.lock != UNLOCKED && s.rx.wait != [] ==> s.messages <= |s.rx.woken| + s.rx.lock)
      && (forall t :: t in s.rx.woken ==> DueToLook(s, t))
      && (s.rx.lock == UNLOCKED && s.rx.woken == {} && s.rx.wait != [] ==> s.messages == 0)
    ensures (forall e :: e in run ==> !e.Reset?) ==>
      var s := After(Init(length, messages), run);
      && (s.tx.lock == UNLOCKED && s.tx.wait != [] ==> s.length - s.messages <= |s.tx.woken|)
      && (s.tx.lock != UNLOCKED && s.tx.wait != [] ==> s.length - s.messages <= |s.tx.woken| + s.tx.lock)
      && (s.tx.lock == UNLOCKED && s.tx.woken == {} && s.tx.wait != [] ==> s.messages == s.length)
  {
    InitSafe(length, messages);
    NoLostWakeUp(Init(length, messages), run);
  }

  // ----- Where the bounds fail -----

  /** The int8_t lock counter: one more event than it can count is lost exactly when a task is waiting. */
  lemma SignalKeepsBoundIff(s: Side)
    requires Tidy(s) && -1 <= s.lock <= 127
    ensures (forall available: int :: Sound(s, available) ==> Sound(Signal(s), available + 1))
       <==> s.lock < 127 || s.wait == []
  {
    if s.lock == 127 {
      var available := |s.woken| + 127;
      assert Sound(s, available);
      assert Sound(Signal(s), available + 1) ==> s.wait == [];
    } else {
      forall available: int | Sound(s, available) ensures Sound(Signal(s), available + 1) {
        SignalSound(s, available);
      }
    }
  }

  /** xQueueReset frees every slot and wakes one sender: the bound survives exactly when that is enough. */
  lemma ResetKeepsSendersIff(s: State, t: Task)
    requires Shape(s) && NoLostSender(s) && Enabled(s, Reset(t))
    ensures NoLostSender(Next(s, Reset(t))) <==> |s.tx.wait| <= 1 || s.length <= |s.tx.woken| + 1
  {
    if s.tx.wait != [] { assert s.tx.wait[0] !in s.tx.woken; }
  }

  lemma {:induction false} RunConcat(s: State, a: seq<Step>, b: seq<Step>)
    requires Legal(s, a) && Legal(After(s, a), b)
    ensures Legal(s, a + b) && After(s, a + b) == After(After(s, a), b)
    decreases |a|
  {
    if a == [] {
      assert a + b == b;
    } else {
      RunConcat(Next(s, a[0]), a[1..], b);
      assert (a + b)[1..] == a[1..] + b;
    }
  }

  lemma RunOf(s: State, e: Step)
    requires Enabled(s, e)
    ensures Legal(s, [e]) && After(s, [e]) == Next(s, e)
  {
    assert Legal(Next(s, e), [e][1..]);
  }

  /** The steps of a task that finds nothing to be had, with nothing else going on, until it sleeps. */
  function BlockingStep(t: Task, k: Kind, at: nat, i: nat): Step
    requires i < 10
  {
    [Call(t, k), Loop(t, true), Suspend(t), LockQueue(t), CheckTimeOut(t, false), CheckQueue(t),
     PlaceOnList(t, at), UnlockTx(t), UnlockRx(t), Resume(t)][i]
  }

  function BlockingState(s: State, t: Task, k: Kind, i: nat): State
    requires i <= 10
  {
    var rx := Side(if 4 <= i < 8 then 0 else UNLOCKED, Joined(s.rx.wait, t, i >= 7 && WaitsToReceive(k)), s.rx.woken);
    var tx := Side(if 4 <= i < 9 then 0 else UNLOCKED, Joined(s.tx.wait, t, i >= 7 && !WaitsToReceive(k)), s.tx.woken);
    var now := s.(suspendedBy := if 3 <= i < 10 then Some(t) else None, rx := rx, tx := tx);
    if i == 0 then now else Goto(now, t, BlockingPc(k, i))
  }

  function Joined(wait: seq<Task>, t: Task, joins: bool): seq<Task> {
    if joins then wait + [t] else wait
  }

  function BlockingPc(k: Kind, i: nat): Pc
    requires i <= 10
  {
    [Out, Top(k), Suspending(k), Locking(k), Timing(k), Checking(k), Placing(k), UnlockingTx(k, Block),
     UnlockingRx(k, Block), Resuming(k, Block), Blocked(k)][i]
  }

  /** Nothing for a call of kind k, and nothing else going on. */
  ghost predicate Quiet(s: State, t: Task, k: Kind) {
    && k != Send(true) && s.messages == (if k.Send? then s.length else 0) && s.suspendedBy == None && PcOf(s, t) == Out
    && s.rx.lock == UNLOCKED && s.tx.lock == UNLOCKED && t !in SideOf(s, k).woken
  }

  lemma BlockingGoesOn(s: State, t: Task, k: Kind, i: nat)
    requires Quiet(s, t, k) && i < 10
    ensures var e := BlockingStep(t, k, |SideOf(s, k).wait|, i);
      Enabled(BlockingState(s, t, k, i), e) && Next(BlockingState(s, t, k, i), e) == BlockingState(s, t, k, i + 1)
  {
    if i >= 5 {
      BlockingEnds(s, t, k, i);
    } else if i == 1 {
      BlockingLoop(s, t, k);
    }
  }

  lemma BlockingLoop(s: State, t: Task, k: Kind)
    requires Quiet(s, t, k)
    ensures var e := BlockingStep(t, k, |SideOf(s, k).wait|, 1);
      Enabled(BlockingState(s, t, k, 1), e) && Next(BlockingState(s, t, k, 1), e) == BlockingState(s, t, k, 2)
  {
    assert SideOf(s, k).woken - {t} == SideOf(s, k).woken;
  }

  lemma BlockingEnds(s: State, t: Task, k: Kind, i: nat)
    requires Quiet(s, t, k) && 5 <= i < 10
    ensures var e := BlockingStep(t, k, |SideOf(s, k).wait|, i);
      Enabled(BlockingState(s, t, k, i), e) && Next(BlockingState(s, t, k, i), e) == BlockingState(s, t, k, i + 1)
  {
    var wait := SideOf(s, k).wait;
    assert wait[..|wait|] + [t] + wait[|wait|..] == wait + [t];
  }

  /** A task takes the first n of these steps; after all ten it sleeps. */
  lemma Blocks(s: State, t: Task, k: Kind, n: nat) returns (run: seq<Step>)
    requires Quiet(s, t, k) && n <= 10
    ensures Legal(s, run) && After(s, run) == BlockingState(s, t, k, n)
  {
    run := [];
    var i := 0;
    while i < n
      invariant i <= n && Legal(s, run) && After(s, run) == BlockingState(s, t, k, i)
    {
      BlockingGoesOn(s, t, k, i);
      run := Done(s, run, BlockingStep(t, k, |SideOf(s, k).wait|, i));
      i := i + 1;
    }
  }

  lemma Done(s: State, run: seq<Step>, e: Step) returns (longer: seq<Step>)
    requires Legal(s, run) && Enabled(After(s, run), e)
    ensures Legal(s, longer) && After(s, longer) == Next(After(s, run), e)
  {
    RunOf(After(s, run), e);
    RunConcat(s, run, [e]);
    longer := run + [e];
  }

  /** xQueueReset can leave a sender asleep beside free slots that nobody woken is there to fill. */
  lemma ResetLosesSender() returns (run: seq<Step>)
    ensures Legal(Init(2, 2), run) && !NoLostSender(After(Init(2, 2), run))
  {
    var first := Blocks(Init(2, 2), 1, Send(false), 10);
    var second := Blocks(After(Init(2, 2), first), 2, Send(false), 10);
    RunConcat(Init(2, 2), first, second);
    run := Done(Init(2, 2), first + second, Reset(3));
  }

  /** A receiver sleeps on an empty queue of length one, and task 2 has locked it to look at its block time; then
      n interrupts have sent. */
  ghost predicate SentWhileLocked(s: State, n: nat) {
    && s.length == 1 && s.messages == (if n > 0 then 1 else 0) && s.rx == Side(Int8(n), [1], {})
    && s.suspendedBy == Some(2) && PcOf(s, 2) == Timing(Receive)
  }

  lemma OneSleepsOneLocks() returns (run: seq<Step>)
    ensures Legal(Init(1, 0), run) && SentWhileLocked(After(Init(1, 0), run), 0)
  {
    var one := BlockingState(Init(1, 0), 1, Receive, 10);
    var first := Blocks(Init(1, 0), 1, Receive, 10);
    var second := Blocks(one, 2, Receive, 4);
    RunConcat(Init(1, 0), first, second);
    run := first + second;
    LockedWithOneWaiting(one);
  }

  lemma LockedWithOneWaiting(one: State)
    requires one == BlockingState(Init(1, 0), 1, Receive, 10)
    ensures SentWhileLocked(BlockingState(one, 2, Receive, 4), 0)
  {
    assert one.rx.wait == [1];
  }

  lemma SendOnceMore(s: State, n: nat)
    requires SentWhileLocked(s, n) && n < 128
    ensures Enabled(s, SendFromISR(true)) && SentWhileLocked(Next(s, SendFromISR(true)), n + 1)
  {
  }

  lemma LockedAndSent(n: nat) returns (run: seq<Step>)
    requires n <= 128
    ensures Legal(Init(1, 0), run) && SentWhileLocked(After(Init(1, 0), run), n)
  {
    run := OneSleepsOneLocks();
    var k := 0;
    while k < n
      invariant k <= n && Legal(Init(1, 0), run) && SentWhileLocked(After(Init(1, 0), run), k)
    {
      SendOnceMore(After(Init(1, 0), run), k);
      run := Done(Init(1, 0), run, SendFromISR(true));
      k := k + 1;
    }
  }

  /** The code does reach the limit of the lock counter, with a task waiting: after 127 interrupts all is accounted for,
      and one more leaves the receiver asleep beside a message, with the queue unlocked and nobody woken. */
  lemma OverflowLosesReceiver() returns (run: seq<Step>, more: seq<Step>)
    ensures Legal(Init(1, 0), run) && Legal(Init(1, 0), more)
    ensures var s := After(Init(1, 0), run); NoLostReceiver(s) && s.rx.lock == 127 && s.rx.wait != []
    ensures var s := After(Init(1, 0), more);
      !NoLostReceiver(s) && s.rx.lock == UNLOCKED && s.rx.woken == {} && s.rx.wait != [] && s.messages == 1
  {
    run := LockedAndSent(127);
    more := LockedAndSent(128);
    UnlockForgets(After(Init(1, 0), more));
    more := Done(Init(1, 0), more, CheckTimeOut(2, true));
    more := Done(Init(1, 0), more, UnlockTx(2));
  }

  lemma UnlockForgets(s: State)
    requires SentWhileLocked(s, 128)
    ensures Enabled(s, CheckTimeOut(2, true)) && Enabled(Next(s, CheckTimeOut(2, true)), UnlockTx(2))
    ensures var s' := Next(Next(s, CheckTimeOut(2, true)), UnlockTx(2));
      s'.rx == Side(UNLOCKED, [1], {}) && s'.messages == 1
  {
  }
}
