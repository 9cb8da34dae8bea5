/** What a call of queue.c gets, and when it gives up: of single steps, and of a call over any run. */
module QueueCalls {
  import opened Wrappers
  import opened EventList
  import opened QueueProtocol

  /** The queue has what a call of kind k asks for. */
  predicate Available(s: State, k: Kind) {
    match k
    case Receive => s.messages > 0
    case Peek => s.messages > 0
    case Send(overwrite) => s.messages < s.length || overwrite
  }

  /** No task has moved but t. */
  ghost predicate OthersStay(s: State, s': State, t: Task) {
    forall u: Task :: u != t ==> PcOf(s', u) == PcOf(s, u)
  }

  /** The first of the tasks waiting is awake, if any waits, and the others wait in the same order. */
  ghost predicate FirstWoken(was: Side, now: Side) {
    && now.lock == was.lock
    && if was.wait == [] then now == was
       else was.wait == [was.wait[0]] + now.wait && now.woken == was.woken + {was.wait[0]}
  }

  ghost predicate SameWaiting(was: Side, now: Side) {
    now.wait == was.wait && now.lock == was.lock && now.woken <= was.woken
  }

  // ----- A look at the queue -----

  /** A call that finds nothing leaves messages and waiting lists alone; without a block time it returns at once,
      with one it goes on. */
  lemma LookInVain(s: State, t: Task, blockTime: bool)
    requires Enabled(s, Loop(t, blockTime)) && !Available(s, PcOf(s, t).k)
    ensures var s' := Next(s, Loop(t, blockTime));
      && s'.messages == s.messages && s'.length == s.length && s'.suspendedBy == s.suspendedBy
      && SameWaiting(s.rx, s'.rx) && SameWaiting(s.tx, s'.tx) && OthersStay(s, s', t)
      && (PcOf(s', t) == Out <==> !blockTime) && (blockTime ==> PcOf(s', t) == Suspending(PcOf(s, t).k))
  {
  }

  /** A call that finds what it asks for returns with it, whatever its block time: a message less, or more, or the same
      for a peek or an overwrite; and the first task that waits for just that is awake. */
  lemma LookSucceeds(s: State, t: Task, blockTime: bool)
    requires Enabled(s, Loop(t, blockTime)) && Available(s, PcOf(s, t).k)
    ensures var s', k := Next(s, Loop(t, blockTime)), PcOf(s, t).k;
      && PcOf(s', t) == Out && OthersStay(s, s', t) && s'.length == s.length && s'.suspendedBy == s.suspendedBy
      && (k == Receive ==> s'.messages == s.messages - 1)
      && (k == Peek ==> s'.messages == s.messages)
      && (k.Send? ==> s'.messages == if s.messages == 0 || !k.overwrite then s.messages + 1 else s.messages)
      && if k == Receive then FirstWoken(s.tx, s'.tx) && SameWaiting(s.rx, s'.rx)
         else if k == Peek then FirstWoken(s.rx.(woken := s.rx.woken - {t}), s'.rx) && s'.tx == s.tx
         else FirstWoken(s.rx, s'.rx) && SameWaiting(s.tx, s'.tx)
  {
    WakesFirst(s.rx);
    WakesFirst(s.tx);
    WakesFirst(s.rx.(woken := s.rx.woken - {t}));
  }

  lemma WakesFirst(s: Side)
    ensures FirstWoken(s, WakeOne(s))
  {
    if s.wait != [] { assert s.wait == [s.wait[0]] + s.wait[1..]; }
  }

  /** An interrupt that sends, or receives: a message more, or less, and the first task that waits for it awake, unless
      the queue is locked; then it is counted. Otherwise it changes nothing. */
  lemma InterruptSends(s: State, overwrite: bool)
    requires Enabled(s, SendFromISR(overwrite)) && s.rx.lock < 127
    ensures var s' := Next(s, SendFromISR(overwrite));
      && s' == s.(messages := s'.messages, rx := s'.rx)
      && if s.messages < s.length || overwrite then
           && s'.messages == (if s.messages == 0 || !overwrite then s.messages + 1 else s.messages)
           && (s.rx.lock == -1 ==> FirstWoken(s.rx, s'.rx))
           && (s.rx.lock >= 0 ==> s'.rx == s.rx.(lock := s.rx.lock + 1))
         else s' == s
  {
    WakesFirst(s.rx);
  }

  lemma InterruptReceives(s: State)
    requires s.tx.lock < 127
    ensures var s' := Next(s, ReceiveFromISR);
      && s' == s.(messages := s'.messages, tx := s'.tx)
      && if s.messages > 0 then
           && s'.messages == s.messages - 1
           && (s.tx.lock == -1 ==> FirstWoken(s.tx, s'.tx))
           && (s.tx.lock >= 0 ==> s'.tx == s.tx.(lock := s.tx.lock + 1))
         else s' == s
  {
    WakesFirst(s.tx);
  }

  /** A tick takes just this task off its list, and wakes nobody else: no event is used up. */
  lemma TimeOutTakesOne(s: State, t: Task, at: nat)
    requires Enabled(s, TimeOut(t, at))
    ensures var s', receives := Next(s, TimeOut(t, at)), !PcOf(s, t).k.Send?;
      && s' == s.(rx := s'.rx, tx := s'.tx) && (if receives then s'.tx == s.tx else s'.rx == s.rx)
      && var was, now := if receives then s.rx else s.tx, if receives then s'.rx else s'.tx;
         && now == was.(wait := now.wait) && was.wait == now.wait[..at] + [t] + now.wait[at..]
  {
  }

  /** A reset empties and unlocks the queue, and wakes the first task that waits to send. */
  lemma ResetEmpties(s: State, t: Task)
    requires Enabled(s, Reset(t))
    ensures var s' := Next(s, Reset(t));
      && s'.messages == 0 && s'.length == s.length && s'.pcs == s.pcs && s'.suspendedBy == s.suspendedBy
      && s'.rx == s.rx.(lock := -1) && FirstWoken(s.tx.(lock := -1), s'.tx)
  {
    WakesFirst(s.tx.(lock := -1));
  }

  /** Unlocking wakes as many as were counted, the first ones on the list, or all there are. */
  lemma {:induction false} UnlockWakesFirst(s: Side)
    ensures var n := ToWake(s.lock, |s.wait|);
      Unlock(s).lock == -1 && Unlock(s).wait == s.wait[n..] && Unlock(s).woken == s.woken + Members(s.wait[..n])
    decreases |s.wait|
  {
    var n := ToWake(s.lock, |s.wait|);
    if s.lock > 0 && s.wait != [] {
      UnlockWakesFirst(WakeOne(s).(lock := s.lock - 1));
      FirstAndRest(s.wait, n);
    } else {
      assert s.wait[..n] == [] && s.wait[n..] == s.wait;
    }
  }

  function ToWake(lock: int, waiting: nat): (n: nat)
    ensures n <= waiting
  {
    if lock <= 0 then 0 else if lock < waiting then lock else waiting
  }

  function Members(wait: seq<Task>): set<Task> {
    set t | t in wait
  }

  lemma FirstAndRest(wait: seq<Task>, n: nat)
    requires 0 < n <= |wait|
    ensures wait[n..] == wait[1..][n - 1..] && Members(wait[..n]) == {wait[0]} + Members(wait[1..][..n - 1])
  {
    assert wait[..n] == [wait[0]] + wait[1..][..n - 1];
  }

  // ----- Calls without a block time -----

  ghost predicate Looking(s: State, t: Task) {
    && (PcOf(s, t).Out? || PcOf(s, t).Top?) && s.suspendedBy != Some(t)
    && t !in s.rx.wait && t !in s.tx.wait
  }

  lemma LookingKept(s: State, e: Step, t: Task)
    requires Looking(s, t) && Enabled(s, e) && e != Loop(t, true)
    ensures Looking(Next(s, e), t)
  {
    OnlyPlacedComeOn(s, e, t);
    LookingGoesOn(s, e, t);
  }

  lemma LookingGoesOn(s: State, e: Step, t: Task)
    requires Looking(s, t) && Enabled(s, e) && e != Loop(t, true)
    ensures var s' := Next(s, e); (PcOf(s', t).Out? || PcOf(s', t).Top?) && s'.suspendedBy != Some(t)
  {
  }

  /** A task comes on a list only by being placed there. */
  lemma OnlyPlacedComeOn(s: State, e: Step, t: Task)
    requires Enabled(s, e) && t !in s.rx.wait && t !in s.tx.wait && !(e.PlaceOnList? && e.t == t)
    ensures t !in Next(s, e).rx.wait && t !in Next(s, e).tx.wait
  {
    if !e.PlaceOnList? && !e.TimeOut? { OthersTakeFromFront(s, e); }
  }

  /** A task whose every look at the queue is without a block time never suspends the scheduler, is never on an event
      list and never blocked, whatever runs. */
  lemma {:induction false} NeverBlocks(s: State, run: seq<Step>, t: Task)
    requires Looking(s, t) && Legal(s, run) && Loop(t, true) !in run
    ensures var s' := After(s, run);
      && (PcOf(s', t).Out? || PcOf(s', t).Top?) && s'.suspendedBy != Some(t)
      && t !in s'.rx.wait && t !in s'.tx.wait
    decreases |run|
  {
    if run != [] {
      LookingKept(s, run[0], t);
      NeverBlocks(Next(s, run[0]), run[1..], t);
    }
  }

  // ----- When a call gives up -----

  /** The step ends a call of t that has not got what it asked for. */
  predicate Fails(s: State, e: Step, t: Task)
    requires Enabled(s, e)
  {
    && PcOf(s, t) != Out && PcOf(Next(s, e), t) == Out
    && !(e.Loop? && e.t == t && Available(s, PcOf(s, t).k))
  }

  /** A call to receive or to peek only gives up on an empty queue, in that very step; a call to send on a full one, or
      when its time was over. */
  lemma FailsWithReason(s: State, e: Step, t: Task)
    requires Enabled(s, e) && PcOf(s, t) != Out
    ensures Fails(s, e, t) <==>
      || (e == Loop(t, false) && !Available(s, PcOf(s, t).k))
      || (e == Recheck(t) && s.messages == 0)
      || (e == Resume(t) && PcOf(s, t).k.Send? && PcOf(s, t).next == Expire)
  {
  }

  /** A receiver whose time is over beside a message looks again. */
  lemma LateMessageIsSeen(s: State, t: Task)
    requires Enabled(s, Recheck(t)) && s.messages > 0
    ensures var s' := Next(s, Recheck(t));
      && PcOf(s', t) == Top(PcOf(s, t).k) && s'.messages == s.messages && s'.rx == s.rx && s'.tx == s.tx
  {
  }

  /** A task that finds, with the queue locked, that there is something for it after all does not sleep: it unlocks the
      queue, lets the scheduler run, and looks again. */
  lemma LooksAgain(s: State, t: Task)
    requires Enabled(s, CheckQueue(t)) && s.messages != if PcOf(s, t).k.Send? then s.length else 0
    ensures var s1 := Next(s, CheckQueue(t));
      Enabled(s1, UnlockTx(t)) &&
      var s2 := Next(s1, UnlockTx(t));
      Enabled(s2, UnlockRx(t)) &&
      var s3 := Next(s2, UnlockRx(t));
      Enabled(s3, Resume(t)) &&
      var s4 := Next(s3, Resume(t));
      && PcOf(s4, t) == Top(PcOf(s, t).k) && s4.suspendedBy == None && s4.messages == s.messages
      && s4.rx.lock == s4.tx.lock == -1
      && FromFront(s.rx.wait, s4.rx.wait) && FromFront(s.tx.wait, s4.tx.wait)
  {
    UnlockWakesFirst(s.rx);
    UnlockWakesFirst(s.tx);
  }

  /** Its time is not over yet. */
  ghost predicate InTime(s: State, t: Task) {
    match PcOf(s, t)
    case UnlockingTx(_, next) => next != Expire
    case UnlockingRx(_, next) => next != Expire
    case Resuming(_, next) => next != Expire
    case Rechecking(_) => false
    case _ => true
  }

  lemma InTimeKept(s: State, e: Step, t: Task)
    requires Enabled(s, e) && InTime(s, t) && e != CheckTimeOut(t, true)
    ensures InTime(Next(s, e), t)
  {
  }

  /** A call with a block time that never ends gives up in no run. */
  lemma {:induction false} PatientCallsSucceed(s: State, run: seq<Step>, e: Step, t: Task)
    requires Legal(s, run) && Enabled(After(s, run), e) && InTime(s, t)
    requires forall x :: x in run + [e] ==> x != Loop(t, false) && x != CheckTimeOut(t, true)
    ensures !Fails(After(s, run), e, t)
    decreases |run|
  {
    if run == [] {
      assert e in run + [e];
      if PcOf(s, t) != Out { FailsWithReason(s, e, t); }
    } else {
      assert run[0] in run + [e];
      InTimeKept(s, run[0], t);
      assert forall x :: x in run[1..] + [e] ==> x in run + [e];
      PatientCallsSucceed(Next(s, run[0]), run[1..], e, t);
    }
  }

  /** A task whose time is over at its look at the clock is not put on an event list any more in this round: until it
      looks at the queue again it is on its way out. */
  ghost predicate Leaving(s: State, t: Task) {
    match PcOf(s, t)
    case UnlockingTx(_, next) => next == Expire
    case UnlockingRx(_, next) => next == Expire
    case Resuming(_, next) => next == Expire
    case Rechecking(_) => true
    case Top(_) => true
    case Out => true
    case _ => false
  }

  lemma {:induction false} ExpiredCallLeaves(s: State, run: seq<Step>, t: Task)
    requires Legal(s, run) && Leaving(s, t) && t !in s.rx.wait && t !in s.tx.wait
    requires forall e :: e in run ==> e != Loop(t, true) && e != Loop(t, false)
    ensures var s' := After(s, run); Leaving(s', t) && t !in s'.rx.wait && t !in s'.tx.wait
    decreases |run|
  {
    if run != [] {
      assert run[0] in run;
      ExpiredKept(s, run[0], t);
      assert forall e :: e in run[1..] ==> e in run;
      ExpiredCallLeaves(Next(s, run[0]), run[1..], t);
    }
  }

  lemma ExpiredKept(s: State, e: Step, t: Task)
    requires Enabled(s, e) && Leaving(s, t) && t !in s.rx.wait && t !in s.tx.wait
    requires e != Loop(t, true) && e != Loop(t, false)
    ensures Leaving(Next(s, e), t) && t !in Next(s, e).rx.wait && t !in Next(s, e).tx.wait
  {
    OnlyPlacedComeOn(s, e, t);
    LeavingGoesOn(s, e, t);
  }

  lemma LeavingGoesOn(s: State, e: Step, t: Task)
    requires Enabled(s, e) && Leaving(s, t) && e != Loop(t, true) && e != Loop(t, false)
    ensures Leaving(Next(s, e), t)
  {
  }

  lemma TimeOverLeaves(s: State, t: Task)
    requires Enabled(s, CheckTimeOut(t, true))
    ensures Leaving(Next(s, CheckTimeOut(t, true)), t)
  {
  }

  // ----- Messages are conserved -----

  /** The messages that a step adds, less those it takes away. */
  function Brings(s: State, e: Step): int {
    match e
    case Loop(t, _) =>
      if PcOf(s, t).Top? && Available(s, PcOf(s, t).k) then BroughtBy(s, PcOf(s, t).k) else 0
    case SendFromISR(overwrite) => if Available(s, Send(overwrite)) then BroughtBy(s, Send(overwrite)) else 0
    case ReceiveFromISR => if Available(s, Receive) then -1 else 0
    case Reset(_) => 0 - s.messages
    case _ => 0
  }

  function BroughtBy(s: State, k: Kind): int {
    match k
    case Receive => -1
    case Peek => 0
    case Send(overwrite) => if overwrite && s.messages > 0 then 0 else 1
  }

  function BroughtAlong(s: State, run: seq<Step>): int
    requires Legal(s, run)
    decreases |run|
  {
    if run == [] then 0 else Brings(s, run[0]) + BroughtAlong(Next(s, run[0]), run[1..])
  }

  /** Only accepted sends, successful receives and resets change the number of messages. */
  lemma {:induction false} MessagesConserved(s: State, run: seq<Step>)
    requires Legal(s, run)
    ensures After(s, run).messages == s.messages + BroughtAlong(s, run)
    decreases |run|
  {
    if run != [] { MessagesConserved(Next(s, run[0]), run[1..]); }
  }

  // ----- The most urgent task is woken -----

  ghost predicate ByUrgency(wait: seq<Task>, urgency: Task -> nat) {
    forall i, j :: 0 <= i < j < |wait| ==> urgency(wait[i]) >= urgency(wait[j])
  }

  /** vTaskPlaceOnEventList: behind all the tasks that are as urgent, before all that are less. */
  ghost predicate WellPlaced(s: State, e: Step, urgency: Task -> nat)
    requires Enabled(s, e)
  {
    e.PlaceOnList? ==>
      var wait := SideOf(s, PcOf(s, e.t).k).wait;
      && (forall i :: 0 <= i < e.at ==> urgency(wait[i]) >= urgency(e.t))
      && forall i :: e.at <= i < |wait| ==> urgency(wait[i]) < urgency(e.t)
  }

  ghost predicate WellPlacedRun(s: State, run: seq<Step>, urgency: Task -> nat)
    requires Legal(s, run)
    decreases |run|
  {
    run != [] ==> WellPlaced(s, run[0], urgency) && WellPlacedRun(Next(s, run[0]), run[1..], urgency)
  }

  lemma PlacedByUrgency(wait: seq<Task>, t: Task, at: nat, urgency: Task -> nat)
    requires ByUrgency(wait, urgency) && at <= |wait|
    requires forall i :: 0 <= i < at ==> urgency(wait[i]) >= urgency(t)
    requires forall i :: at <= i < |wait| ==> urgency(wait[i]) < urgency(t)
    ensures ByUrgency(wait[..at] + [t] + wait[at..], urgency)
  {
  }

  lemma LeftByUrgency(wait: seq<Task>, at: nat, urgency: Task -> nat)
    requires ByUrgency(wait, urgency) && at < |wait|
    ensures ByUrgency(wait[..at] + wait[at + 1..], urgency) && ByUrgency(wait[at..], urgency)
  {
  }

  ghost predicate BothByUrgency(s: State, urgency: Task -> nat) {
    ByUrgency(s.rx.wait, urgency) && ByUrgency(s.tx.wait, urgency)
  }

  lemma ByUrgencyKept(s: State, e: Step, urgency: Task -> nat)
    requires BothByUrgency(s, urgency) && Enabled(s, e) && WellPlaced(s, e, urgency)
    ensures BothByUrgency(Next(s, e), urgency)
  {
    if e.PlaceOnList? {
      PlacedByUrgency(SideOf(s, PcOf(s, e.t).k).wait, e.t, e.at, urgency);
    } else if e.TimeOut? {
      LeftByUrgency(SideOf(s, PcOf(s, e.t).k).wait, e.at, urgency);
    } else {
      OthersTakeFromFront(s, e);
      RestByUrgency(s.rx.wait, Next(s, e).rx.wait, urgency);
      RestByUrgency(s.tx.wait, Next(s, e).tx.wait, urgency);
    }
  }

  lemma RestByUrgency(was: seq<Task>, now: seq<Task>, urgency: Task -> nat)
    requires ByUrgency(was, urgency) && FromFront(was, now)
    ensures ByUrgency(now, urgency)
  {
  }

  /** Whatever else happens, tasks leave a list from its front. */
  lemma OthersTakeFromFront(s: State, e: Step)
    requires Enabled(s, e) && !e.PlaceOnList? && !e.TimeOut?
    ensures FromFront(s.rx.wait, Next(s, e).rx.wait) && FromFront(s.tx.wait, Next(s, e).tx.wait)
  {
    FrontOfSides(s.rx);
    FrontOfSides(s.tx);
    if e.Loop? { LooksTakeFromFront(s, e.t, e.blockTime); }
  }

  lemma LooksTakeFromFront(s: State, t: Task, blockTime: bool)
    requires Enabled(s, Loop(t, blockTime))
    ensures var s' := Next(s, Loop(t, blockTime)); FromFront(s.rx.wait, s'.rx.wait) && FromFront(s.tx.wait, s'.tx.wait)
  {
    var s' := Next(s, Loop(t, blockTime));
    if Available(s, PcOf(s, t).k) { LookSucceeds(s, t, blockTime); } else { LookInVain(s, t, blockTime); }
    FrontIfFirst(s.rx, s'.rx, t);
    FrontIfFirst(s.tx, s'.tx, t);
  }

  lemma FrontIfFirst(was: Side, now: Side, t: Task)
    requires SameWaiting(was, now) || FirstWoken(was, now) || FirstWoken(was.(woken := was.woken - {t}), now)
    ensures FromFront(was.wait, now.wait)
  {
  }

  lemma FrontOfSides(s: Side)
    ensures FromFront(s.wait, s.wait) && FromFront(s.wait, Unlock(s).wait) && FromFront(s.wait, WakeOne(s).wait)
  {
    UnlockWakesFirst(s);
  }

  ghost predicate FromFront(was: seq<Task>, now: seq<Task>) {
    |now| <= |was| && now == was[|was| - |now|..]
  }

  lemma {:induction false} ByUrgencyRun(s: State, run: seq<Step>, urgency: Task -> nat)
    requires BothByUrgency(s, urgency) && Legal(s, run) && WellPlacedRun(s, run, urgency)
    ensures BothByUrgency(After(s, run), urgency)
    decreases |run|
  {
    if run != [] {
      ByUrgencyKept(s, run[0], urgency);
      ByUrgencyRun(Next(s, run[0]), run[1..], urgency);
    }
  }

  /** Over any run in which tasks go on the lists by their priorities: a task that an event takes off a list was before
      every task that it leaves there, and is at least as urgent. */
  lemma MostUrgentIsWoken(length: nat, messages: nat, run: seq<Step>, e: Step, urgency: Task -> nat, u: Task, v: Task)
    requires 0 < length && messages <= length && Legal(Init(length, messages), run) && !e.TimeOut?
    requires WellPlacedRun(Init(length, messages), run, urgency) && Enabled(After(Init(length, messages), run), e)
    ensures var s := After(Init(length, messages), run);
      && MoreUrgent(s.rx.wait, Next(s, e).rx.wait, urgency, u, v)
      && MoreUrgent(s.tx.wait, Next(s, e).tx.wait, urgency, u, v)
  {
    var s := After(Init(length, messages), run);
    ByUrgencyRun(Init(length, messages), run, urgency);
    if e.PlaceOnList? {
      StillThere(SideOf(s, PcOf(s, e.t).k).wait, e.t, e.at);
    } else {
      OthersTakeFromFront(s, e);
      FrontIsMoreUrgent(s.rx.wait, Next(s, e).rx.wait, urgency, u, v);
      FrontIsMoreUrgent(s.tx.wait, Next(s, e).tx.wait, urgency, u, v);
    }
  }

  /** If u has gone from the list and v is still on it, u was before v, and is as urgent or more. */
  ghost predicate MoreUrgent(was: seq<Task>, now: seq<Task>, urgency: Task -> nat, u: Task, v: Task) {
    u in was && u !in now && v in was && v in now ==>
      urgency(u) >= urgency(v) && exists i, j :: 0 <= i < j < |was| && was[i] == u && was[j] == v
  }

  lemma FrontIsMoreUrgent(was: seq<Task>, now: seq<Task>, urgency: Task -> nat, u: Task, v: Task)
    requires ByUrgency(was, urgency) && FromFront(was, now)
    ensures MoreUrgent(was, now, urgency, u, v)
  {
    if u in was && u !in now && v in was && v in now {
      var gone := was[..|was| - |now|];
      assert was == gone + now && u in gone;
      var i :| 0 <= i < |gone| && gone[i] == u;
      var k :| 0 <= k < |now| && now[k] == v;
      assert was[i] == u && was[|gone| + k] == v;
    }
  }

  lemma StillThere(wait: seq<Task>, t: Task, at: nat)
    requires at <= |wait|
    ensures forall u :: u in wait ==> u in wait[..at] + [t] + wait[at..]
  {
    assert wait == wait[..at] + wait[at..];
  }
}
