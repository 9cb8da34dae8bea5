/** The recursive mutex of queue.c, under any interleaving of the takes and gives of any number of tasks.
  The two functions test the holder and change the call count outside every critical section, so the test, the
  read and the write of the count are steps of their own. */
module RecursiveMutex {
  import opened Wrappers

  type Task = nat

  /** UBaseType_t has 32 bits. */
  const WORD := 0x1_0000_0000

  /** One more and one less, in 32 bits. */
  function Up(count: nat): nat {
    if count < WORD - 1 then count + 1 else 0
  }

  function Down(count: nat): nat {
    if count == 0 then WORD - 1 else count - 1
  }

  datatype Operation = Take | Give

  datatype Pc =
    | Out
    | Comparing(op: Operation)          // about to compare pxMutexHolder with the calling task
    | Acquiring                         // in xQueueSemaphoreTake
    | Reading(op: Operation)            // about to read uxRecursiveCallCount
    | Writing(op: Operation, read: nat) // about to write it back, changed by one
    | Testing                           // about to test whether it has become zero
    | Returning                         // about to send, and so return the mutex

  /** A completed call. */
  datatype Outcome = Took(t: Task) | Gave(t: Task) | TimedOut(t: Task) | Refused(t: Task)

  datatype State = State(messages: nat, holder: Option<Task>, count: nat, pcs: map<Task, Pc>, log: seq<Outcome>)

  /** prvInitialiseMutex, with the send that makes the mutex available. */
  const Initial: State := State(1, None, 0, map[], [])

  function PcOf(s: State, t: Task): Pc {
    if t in s.pcs then s.pcs[t] else Out
  }

  function Goto(s: State, t: Task, pc: Pc): State {
    s.(pcs := s.pcs[t := pc])
  }

  function Return(s: State, t: Task, outcome: Outcome): State {
    Goto(s, t, Out).(log := s.log + [outcome])
  }

  datatype Step =
    | Call(t: Task, op: Operation)
    | Compare(t: Task)
    | Acquire(t: Task, giveUp: bool)    // the critical section of xQueueSemaphoreTake; giveUp: the block time is over
    | Read(t: Task)
    | Write(t: Task)
    | Test(t: Task)
    | Send(t: Task)                     // the critical section of xQueueGenericSend

  predicate Enabled(s: State, e: Step) {
    match e
    case Call(t, _) => PcOf(s, t).Out?
    case Compare(t) => PcOf(s, t).Comparing?
    case Acquire(t, _) => PcOf(s, t).Acquiring?
    case Read(t) => PcOf(s, t).Reading?
    case Write(t) => PcOf(s, t).Writing?
    case Test(t) => PcOf(s, t).Testing?
    case Send(t) => PcOf(s, t).Returning?
  }

  function Next(s: State, e: Step): State
    requires Enabled(s, e)
  {
    match e
    case Call(t, op) => Goto(s, t, Comparing(op))
    case Compare(t) =>
      var op := PcOf(s, t).op;
      if s.holder == Some(t) then Goto(s, t, Reading(op))
      else if op.Take? then Goto(s, t, Acquiring)
      else Return(s, t, Refused(t))
    case Acquire(t, giveUp) =>
      if s.messages > 0 then Goto(s.(messages := s.messages - 1, holder := Some(t)), t, Reading(Take))
      else if giveUp then Return(s, t, TimedOut(t))
      else s
    case Read(t) => Goto(s, t, Writing(PcOf(s, t).op, s.count))
    case Write(t) =>
      var read := PcOf(s, t).read;
      if PcOf(s, t).op.Take? then Return(s.(count := Up(read)), t, Took(t))
      else Goto(s.(count := Down(read)), t, Testing)
    case Test(t) => if s.count == 0 then Goto(s, t, Returning) else Return(s, t, Gave(t))
    case Send(t) =>
      var sent := if s.messages < 1 then s.(messages := s.messages + 1, holder := None) else s;
      Return(sent, t, Gave(t))
  }

  predicate Legal(s: State, run: seq<Step>)
    decreases |run|
  {
    run == [] || (Enabled(s, run[0]) && Legal(Next(s, run[0]), run[1..]))
  }

  function After(s: State, run: seq<Step>): State
    requires Legal(s, run)
    decreases |run|
  {
    if run == [] then s else After(Next(s, run[0]), run[1..])
  }

  /** Successful takes less successful gives of a task. */
  function Balance(log: seq<Outcome>, t: Task): int {
    if log == [] then 0
    else Balance(log[..|log| - 1], t) + Worth(log[|log| - 1], t)
  }

  function Worth(outcome: Outcome, t: Task): int {
    if outcome == Took(t) then 1 else if outcome == Gave(t) then -1 else 0
  }

  // ----- The invariants -----

  /** In a part of a call that only the holder gets to. */
  predicate Inside(pc: Pc) {
    pc.Reading? || pc.Writing? || pc.Testing? || pc.Returning?
  }

  /** The mutex is available exactly when nobody holds it, only the holder changes the count, and no other
      task gets between its reading and its writing. */
  ghost predicate Exclusive(s: State) {
    && s.messages <= 1 && (s.messages == 1 <==> s.holder == None)
    && s.count < WORD && (s.holder == None ==> s.count == 0)
    && forall t :: t in s.pcs ==> PlaceOk(s, t, s.pcs[t])
  }

  ghost predicate PlaceOk(s: State, t: Task, pc: Pc) {
    && (Inside(pc) ==> s.holder == Some(t))
    && (pc.Writing? ==> pc.read == s.count)
    && (pc.Returning? ==> s.count == 0)
    && (pc.Acquiring? ==> s.holder != Some(t))
  }

  /** What the count will be worth to a task once its call is over: a give under way is not in its log yet. */
  function Settled(s: State, t: Task): nat {
    if s.holder != Some(t) then 0
    else if PcOf(s, t).Testing? || PcOf(s, t).Returning? then s.count + 1
    else s.count
  }

  /** The count agrees with the calls that succeeded, in 32-bit arithmetic. */
  ghost predicate Accounted(s: State) {
    forall t: Task :: Congruent(Balance(s.log, t), Settled(s, t))
  }

  ghost predicate Congruent(a: int, b: int) {
    exists k :: Turns(a, b, k)
  }

  predicate Turns(a: int, b: int, k: int) {
    a == b + WORD * k
  }

  lemma TurnsRemain(a: int, b: nat)
    requires Congruent(a, b) && b < WORD
    ensures a % WORD == b
  {
    var k :| Turns(a, b, k);
  }

  /** As long as the count has not been around, it agrees exactly, and is not zero while the mutex is held. */
  ghost predicate Exact(s: State) {
    && (forall t: Task :: Balance(s.log, t) == Settled(s, t))
    && forall t :: s.holder == Some(t) ==> s.count > 0 || Passing(PcOf(s, t))
  }

  /** Taking the mutex for the first time, or giving it for the last. */
  predicate Passing(pc: Pc) {
    pc == Reading(Take) || (pc.Writing? && pc.op.Take?) || pc.Testing? || pc.Returning?
  }

  lemma ExclusiveKept(s: State, e: Step)
    requires Exclusive(s) && Enabled(s, e)
    ensures Exclusive(Next(s, e))
  {
    var s' := Next(s, e);
    forall u | u in s'.pcs ensures PlaceOk(s', u, s'.pcs[u]) {
      assert u in s.pcs ==> PlaceOk(s, u, s.pcs[u]);
      assert e.t in s.pcs ==> PlaceOk(s, e.t, s.pcs[e.t]);
    }
  }

  /** What another task does between two steps of a call leaves alone whether this task is the holder, and, if
      it is, the count. */
  lemma OthersLeaveHolderAlone(s: State, e: Step, t: Task)
    requires Exclusive(s) && Enabled(s, e) && e.t != t
    ensures Next(s, e).holder == Some(t) <==> s.holder == Some(t)
    ensures s.holder == Some(t) ==> Next(s, e).count == s.count && Next(s, e).messages == s.messages
    ensures PcOf(Next(s, e), t) == PcOf(s, t)
  {
    assert e.t in s.pcs ==> PlaceOk(s, e.t, s.pcs[e.t]);
  }

  /** What one step adds to a task's balance is what it adds to its settled count. */
  lemma AccountedKept(s: State, e: Step)
    requires Exclusive(s) && Accounted(s) && Enabled(s, e)
    ensures Accounted(Next(s, e))
  {
    var s' := Next(s, e);
    forall t: Task ensures Congruent(Balance(s'.log, t), Settled(s', t)) {
      assert Congruent(Balance(s.log, t), Settled(s, t));
      if e.t != t { OthersLeaveAccount(s, e, t); } else { AccountedForMover(s, e); }
    }
  }

  lemma OthersLeaveAccount(s: State, e: Step, t: Task)
    requires Exclusive(s) && Enabled(s, e) && e.t != t
    ensures Balance(Next(s, e).log, t) == Balance(s.log, t) && Settled(Next(s, e), t) == Settled(s, t)
  {
    BalanceStep(s, e, t);
    OthersLog(s, e, t);
    OthersLeaveHolderAlone(s, e, t);
  }

  lemma OthersLog(s: State, e: Step, t: Task)
    requires Enabled(s, e) && e.t != t
    ensures |Next(s, e).log| > |s.log| ==> Worth(Next(s, e).log[|s.log|], t) == 0
  {
  }

  lemma AccountedForMover(s: State, e: Step)
    requires Exclusive(s) && Congruent(Balance(s.log, e.t), Settled(s, e.t)) && Enabled(s, e)
    ensures Congruent(Balance(Next(s, e).log, e.t), Settled(Next(s, e), e.t))
  {
    if e.Write? {
      AccountedForWrite(s, e.t);
    } else {
      AccountedForOthers(s, e);
    }
  }

  lemma AccountedForOthers(s: State, e: Step)
    requires Exclusive(s) && Congruent(Balance(s.log, e.t), Settled(s, e.t)) && Enabled(s, e) && !e.Write?
    ensures Congruent(Balance(Next(s, e).log, e.t), Settled(Next(s, e), e.t))
  {
    BalanceStep(s, e, e.t);
    SettledByMover(s, e);
    OneLess(Balance(s.log, e.t), s.count);
  }

  lemma AccountedForWrite(s: State, t: Task)
    requires Exclusive(s) && Congruent(Balance(s.log, t), Settled(s, t)) && Enabled(s, Write(t))
    ensures Congruent(Balance(Next(s, Write(t)).log, t), Settled(Next(s, Write(t)), t))
  {
    SettledByWrite(s, t);
    BalanceStep(s, Write(t), t);
    CountWraps(Balance(s.log, t), s.count);
  }

  /** A take is settled and logged by its write, a give only settled. */
  lemma SettledByWrite(s: State, t: Task)
    requires Exclusive(s) && Enabled(s, Write(t))
    ensures Settled(s, t) == s.count < WORD
    ensures var s' := Next(s, Write(t));
      if PcOf(s, t).op.Take? then Settled(s', t) == Up(s.count) && s'.log == s.log + [Took(t)]
      else Settled(s', t) == Down(s.count) + 1 && s'.log == s.log
  {
    assert PlaceOk(s, t, s.pcs[t]);
  }

  /** The give that is under way is settled already; when its outcome is logged the balance follows. */
  lemma SettledByMover(s: State, e: Step)
    requires Exclusive(s) && Enabled(s, e) && !e.Write?
    ensures if e.Send? || (e.Test? && s.count != 0) then
        Settled(s, e.t) == s.count + 1 && Settled(Next(s, e), e.t) == s.count && Next(s, e).log == s.log + [Gave(e.t)]
      else
        Settled(Next(s, e), e.t) == Settled(s, e.t)
        && (|Next(s, e).log| == |s.log| || Worth(Next(s, e).log[|s.log|], e.t) == 0)
  {
    assert PlaceOk(s, e.t, PcOf(s, e.t));
  }

  lemma CountWraps(balance: int, count: nat)
    requires count < WORD && Congruent(balance, count)
    ensures Congruent(balance + 1, Up(count)) && Congruent(balance, Down(count) + 1)
  {
    var k :| Turns(balance, count, k);
    assert Turns(balance + 1, Up(count), if count == WORD - 1 then k + 1 else k);
    assert Turns(balance, Down(count) + 1, if count == 0 then k - 1 else k);
  }

  lemma OneLess(balance: int, count: int)
    ensures Congruent(balance, count + 1) <==> Congruent(balance - 1, count)
  {
    var more, less := count + 1, balance - 1;
    if k :| Turns(balance, more, k) { assert Turns(less, count, k); }
    if k :| Turns(less, count, k) { assert Turns(balance, more, k); }
  }

  lemma BalanceStep(s: State, e: Step, t: Task)
    requires Enabled(s, e)
    ensures Balance(Next(s, e).log, t) == Balance(s.log, t) +
      if |Next(s, e).log| > |s.log| then Worth(Next(s, e).log[|s.log|], t) else 0
  {
    var log := Next(s, e).log;
    if |log| > |s.log| {
      assert log[..|log| - 1] == s.log;
    }
  }

  /** No task has as many takes outstanding as the count cannot hold. */
  ghost predicate Shallow(s: State) {
    forall t: Task :: Balance(s.log, t) < WORD
  }

  ghost predicate ShallowRun(s: State, run: seq<Step>)
    requires Legal(s, run)
    decreases |run|
  {
    Shallow(s) && (run != [] ==> ShallowRun(Next(s, run[0]), run[1..]))
  }

  lemma ExactKept(s: State, e: Step)
    requires Exclusive(s) && Exact(s) && Enabled(s, e) && Shallow(Next(s, e))
    ensures Exact(Next(s, e))
  {
    var s' := Next(s, e);
    ExactForMover(s, e);
    forall t: Task ensures Balance(s'.log, t) == Settled(s', t) {
      if e.t != t { OthersLeaveAccount(s, e, t); }
    }
    forall t | s'.holder == Some(t) ensures s'.count > 0 || Passing(PcOf(s', t)) {
      if e.t != t { OthersLeaveHolderAlone(s, e, t); }
    }
  }

  lemma ExactForMover(s: State, e: Step)
    requires Exclusive(s) && Exact(s) && Enabled(s, e) && Balance(Next(s, e).log, e.t) < WORD
    ensures var s' := Next(s, e);
      && Balance(s'.log, e.t) == Settled(s', e.t)
      && (s'.holder == Some(e.t) ==> s'.count > 0 || Passing(PcOf(s', e.t)))
  {
    if e.Write? {
      ExactForWrite(s, e.t);
    } else {
      BalanceStep(s, e, e.t);
      SettledByMover(s, e);
      assert PlaceOk(s, e.t, PcOf(s, e.t));
    }
  }

  lemma ExactForWrite(s: State, t: Task)
    requires Exclusive(s) && Exact(s) && Enabled(s, Write(t)) && Balance(Next(s, Write(t)).log, t) < WORD
    ensures var s' := Next(s, Write(t));
      && Balance(s'.log, t) == Settled(s', t)
      && (s'.holder == Some(t) ==> s'.count > 0 || Passing(PcOf(s', t)))
  {
    BalanceStep(s, Write(t), t);
    WriteCounts(s, t);
  }

  /** The write of the count does not wrap. */
  lemma WriteCounts(s: State, t: Task)
    requires Exclusive(s) && Exact(s) && Enabled(s, Write(t)) && Balance(Next(s, Write(t)).log, t) < WORD
    ensures Next(s, Write(t)).count == if PcOf(s, t).op.Take? then s.count + 1 else s.count - 1
    ensures PcOf(s, t).read == s.count && s.holder == Some(t) && s.count == Balance(s.log, t)
  {
    assert PlaceOk(s, t, s.pcs[t]);
    BalanceStep(s, Write(t), t);
  }

  lemma {:induction false} MutexRun(s: State, run: seq<Step>)
    requires Legal(s, run) && Exclusive(s) && Accounted(s)
    ensures Exclusive(After(s, run)) && Accounted(After(s, run))
    decreases |run|
  {
    if run != [] {
      ExclusiveKept(s, run[0]);
      AccountedKept(s, run[0]);
      MutexRun(Next(s, run[0]), run[1..]);
    }
  }

  lemma {:induction false} ExactRun(s: State, run: seq<Step>)
    requires Legal(s, run) && ShallowRun(s, run) && Exclusive(s) && Exact(s)
    ensures Exclusive(After(s, run)) && Exact(After(s, run))
    decreases |run|
  {
    if run != [] {
      assert ShallowRun(Next(s, run[0]), run[1..]);
      ExclusiveKept(s, run[0]);
      ExactKept(s, run[0]);
      ExactRun(Next(s, run[0]), run[1..]);
    }
  }

  lemma InitialAccounted()
    ensures Exclusive(Initial) && Accounted(Initial)
  {
    assert Turns(0, 0, 0);
  }

  /** Over every interleaving: available exactly when nobody holds it; a task between calls has as many gives
      outstanding as the call count says if it is the holder, none if not, in the count's 32 bits. */
  lemma RecursiveMutexWorks(run: seq<Step>)
    requires Legal(Initial, run)
    ensures var s := After(Initial, run);
      && (s.messages == 1 <==> s.holder == None)
      && forall t: Task :: PcOf(s, t).Out? ==> Balance(s.log, t) % WORD == if s.holder == Some(t) then s.count else 0
  {
    InitialAccounted();
    MutexRun(Initial, run);
    var s := After(Initial, run);
    forall t: Task | PcOf(s, t).Out? ensures Balance(s.log, t) % WORD == if s.holder == Some(t) then s.count else 0 {
      assert Congruent(Balance(s.log, t), Settled(s, t));
      TurnsRemain(Balance(s.log, t), Settled(s, t));
    }
  }

  /** However long the run: while no task nests its takes 2^32 deep, the holder between calls has exactly count takes
      still to give back, at least one, and nobody else has any. */
  lemma CountIsTakesLessGives(run: seq<Step>, t: Task)
    requires Legal(Initial, run) && ShallowRun(Initial, run) && PcOf(After(Initial, run), t).Out?
    ensures var s := After(Initial, run);
      if s.holder == Some(t) then Balance(s.log, t) == s.count > 0 else Balance(s.log, t) == 0
  {
    ExactRun(Initial, run);
  }

  lemma AtMostOneHolds(run: seq<Step>, t: Task, u: Task)
    requires Legal(Initial, run) && ShallowRun(Initial, run)
    requires Balance(After(Initial, run).log, t) > 0 && Balance(After(Initial, run).log, u) > 0
    ensures t == u && After(Initial, run).messages == 0
  {
    ExactRun(Initial, run);
  }

  /** In 32 bits the nesting can be forgotten: the count of one more take is zero, with the mutex still held,
      exactly when the count was at its limit. */
  lemma NestingForgottenIff(s: State, t: Task)
    requires Exclusive(s) && PcOf(s, t).Writing? && PcOf(s, t).op.Take?
    ensures var s' := Next(s, Write(t)); (s'.holder == Some(t) && s'.count == 0) <==> s.count == WORD - 1
  {
    assert PlaceOk(s, t, s.pcs[t]);
  }

  /** Task t is between calls, with n takes outstanding, and has the mutex if there are any. */
  ghost predicate Nested(s: State, t: Task, n: nat) {
    && PcOf(s, t).Out? && Balance(s.log, t) == n
    && if n == 0 then s.messages == 1 && s.holder == None && s.count == 0
       else s.messages == 0 && s.holder == Some(t) && s.count == if n < WORD then n else n - WORD
  }

  /** The steps of a take that succeeds at once. */
  lemma TakeOnceMore(run: seq<Step>, t: Task, n: nat) returns (longer: seq<Step>)
    requires Legal(Initial, run) && Nested(After(Initial, run), t, n) && n + 1 < 2 * WORD
    ensures Legal(Initial, longer) && Nested(After(Initial, longer), t, n + 1)
  {
    ghost var was := After(Initial, run);
    longer := Done(run, Call(t, Take));
    longer := Done(longer, Compare(t));
    if was.holder == None { longer := Done(longer, Acquire(t, false)); }
    longer := Done(longer, Read(t));
    longer := Done(longer, Write(t));
    assert After(Initial, longer).log == was.log + [Took(t)];
    assert (was.log + [Took(t)])[..|was.log|] == was.log;
  }

  lemma Done(run: seq<Step>, e: Step) returns (longer: seq<Step>)
    requires Legal(Initial, run) && Enabled(After(Initial, run), e)
    ensures Legal(Initial, longer) && After(Initial, longer) == Next(After(Initial, run), e)
  {
    Extend(Initial, run, e);
    longer := run + [e];
  }

  /** A task can nest its takes to any depth: there is a run that does. */
  lemma Nest(t: Task, n: nat) returns (run: seq<Step>)
    requires n < 2 * WORD
    ensures Legal(Initial, run) && Nested(After(Initial, run), t, n)
  {
    run := [];
    var k := 0;
    while k < n
      invariant k <= n && Legal(Initial, run) && Nested(After(Initial, run), t, k)
    {
      run := TakeOnceMore(run, t, k);
      k := k + 1;
    }
  }

  /** So the code does reach a mutex that is available while a task has 2^32 takes outstanding: it takes the mutex once
      more than that, and gives it once. */
  lemma NestingForgotten(t: Task) returns (run: seq<Step>)
    ensures Legal(Initial, run)
    ensures var s := After(Initial, run);
      PcOf(s, t).Out? && s.messages == 1 && s.holder == None && Balance(s.log, t) == WORD
  {
    run := Nest(t, WORD + 1);
    ghost var was := After(Initial, run);
    run := Done(run, Call(t, Give));
    run := Done(run, Compare(t));
    run := Done(run, Read(t));
    run := Done(run, Write(t));
    run := Done(run, Test(t));
    run := Done(run, Send(t));
    assert After(Initial, run).log == was.log + [Gave(t)];
    assert (was.log + [Gave(t)])[..|was.log|] == was.log;
  }

  /** A give by a task that is not the holder is refused and changes nothing, whatever runs in between. */
  lemma {:induction false} GiveByNonHolderRefused(s: State, others: seq<Step>, t: Task)
    requires Exclusive(s) && s.holder != Some(t) && PcOf(s, t) == Comparing(Give)
    requires Legal(s, others) && forall e :: e in others ==> e.t != t
    ensures var s1 := After(s, others);
      && Enabled(s1, Compare(t))
      && var s2 := Next(s1, Compare(t));
         && s2.messages == s1.messages && s2.holder == s1.holder && s2.count == s1.count
         && s2.log == s1.log + [Refused(t)] && PcOf(s2, t) == Out
         && forall u :: u != t ==> PcOf(s2, u) == PcOf(s1, u)
    decreases |others|
  {
    if others != [] {
      OthersLeaveHolderAlone(s, others[0], t);
      ExclusiveKept(s, others[0]);
      GiveByNonHolderRefused(Next(s, others[0]), others[1..], t);
    }
  }

  /** The give that unwinds the count to zero always finds room to return the mutex, so that it is then free. */
  lemma LastGiveFrees(s: State, t: Task)
    requires Exclusive(s) && PcOf(s, t).Returning?
    ensures s.messages == 0
    ensures Next(s, Send(t)).messages == 1 && Next(s, Send(t)).holder == None && Next(s, Send(t)).count == 0
  {
    assert PlaceOk(s, t, s.pcs[t]);
  }

  // ----- How calls end -----

  /** A take that finds the mutex held by another changes nothing while it has time left; when it has none it times out.
      One that finds the mutex free becomes the holder, even at the last moment. */
  lemma AcquireWaits(s: State, t: Task, giveUp: bool)
    requires Exclusive(s) && Enabled(s, Acquire(t, giveUp))
    ensures var s' := Next(s, Acquire(t, giveUp));
      if s.holder == None then
        && s'.holder == Some(t) && s'.messages == 0 && PcOf(s', t) == Reading(Take)
        && s'.log == s.log && s'.count == s.count
      else if giveUp then
        && PcOf(s', t) == Out && s'.log == s.log + [TimedOut(t)]
        && s'.holder == s.holder && s'.messages == s.messages && s'.count == s.count
      else s' == s
  {
  }

  /** A step completes at most one call, its own task's. A take succeeds for the holder alone and times out only while
      another holds the mutex and when its time is over; a give succeeds for the holder and is refused to others. */
  lemma OutcomesRight(s: State, e: Step)
    requires Exclusive(s) && Enabled(s, e)
    ensures var s' := Next(s, e);
      s'.log == s.log ||
      (|s'.log| == |s.log| + 1 && s'.log[..|s.log|] == s.log && PcOf(s', e.t) == Out
        && match s'.log[|s.log|]
           case Took(t) => t == e.t && s.holder == s'.holder == Some(t)
           case Gave(t) => t == e.t && s.holder == Some(t)
           case TimedOut(t) => e == Acquire(t, true) && s.holder.Some? && s.holder != Some(t)
           case Refused(t) => e == Compare(t) && PcOf(s, t).op == Give && s.holder != Some(t))
  {
    assert e.t in s.pcs ==> PlaceOk(s, e.t, s.pcs[e.t]);
  }

  /** A take with a block time that never ends never times out. */
  lemma {:induction false} PatientTakesSucceed(s: State, run: seq<Step>, t: Task)
    requires Exclusive(s) && Legal(s, run) && TimedOut(t) !in s.log && Acquire(t, true) !in run
    ensures TimedOut(t) !in After(s, run).log
    decreases |run|
  {
    if run != [] {
      OutcomesRight(s, run[0]);
      ExclusiveKept(s, run[0]);
      var log := Next(s, run[0]).log;
      assert log == s.log || log == s.log + [log[|s.log|]];
      PatientTakesSucceed(Next(s, run[0]), run[1..], t);
    }
  }

  // ----- The functions on the fields of the queue object -----

  lemma {:induction false} Extend(s: State, run: seq<Step>, e: Step)
    requires Legal(s, run) && Enabled(After(s, run), e)
    ensures Legal(s, run + [e]) && After(s, run + [e]) == Next(After(s, run), e)
    decreases |run|
  {
    if run == [] {
      assert Legal(Next(s, e), [e][1..]);
    } else {
      Extend(Next(s, run[0]), run[1..], e);
      assert (run + [e])[1..] == run[1..] + [e];
    }
  }

  /** The calls as a task makes them. The steps of a call are written out in order; those of other tasks may come
      between any two of them, which is what the lemmas above are about. */
  class Mutex {
    var uxMessagesWaiting: nat
    var pxMutexHolder: Option<Task>
    var uxRecursiveCallCount: nat

    ghost predicate Represents(s: State)
      reads this
    {
      s.messages == uxMessagesWaiting && s.holder == pxMutexHolder && s.count == uxRecursiveCallCount
    }

    constructor ()
      ensures Represents(Initial)
    {
      uxMessagesWaiting, pxMutexHolder, uxRecursiveCallCount := 1, None, 0;
    }

    method GiveMutexRecursive(t: Task, ghost s: State) returns (passed: bool, ghost run: seq<Step>)
      requires Represents(s) && Exclusive(s) && PcOf(s, t).Out?
      modifies this
      ensures Legal(s, run) && Represents(After(s, run)) && PcOf(After(s, run), t).Out?
      ensures passed <==> s.holder == Some(t)
      ensures After(s, run).log == s.log + [if passed then Gave(t) else Refused(t)]
      ensures passed && old(uxRecursiveCallCount) > 1 ==>
        uxRecursiveCallCount == old(uxRecursiveCallCount) - 1 && pxMutexHolder == Some(t) && uxMessagesWaiting == 0
      ensures passed && old(uxRecursiveCallCount) == 1 ==>
        uxRecursiveCallCount == 0 && pxMutexHolder == None && uxMessagesWaiting == 1
      ensures !passed ==> uxRecursiveCallCount == old(uxRecursiveCallCount)
      ensures !passed ==> pxMutexHolder == old(pxMutexHolder) && uxMessagesWaiting == old(uxMessagesWaiting)
    {
      run := [Call(t, Give)];
      Extend(s, [], Call(t, Give));
      Extend(s, run, Compare(t));
      run := run + [Compare(t)];
      passed := pxMutexHolder == Some(t);
      if passed {
        Extend(s, run, Read(t));
        run := run + [Read(t)];
        Extend(s, run, Write(t));
        run := run + [Write(t)];
        uxRecursiveCallCount := Down(uxRecursiveCallCount);
        Extend(s, run, Test(t));
        run := run + [Test(t)];
        if uxRecursiveCallCount == 0 {
          Extend(s, run, Send(t));
          run := run + [Send(t)];
          GenericSend();
        }
      }
    }

    /** The critical section of xQueueGenericSend, with no block time, on a mutex. */
    method GenericSend()
      modifies this
      ensures uxRecursiveCallCount == old(uxRecursiveCallCount)
      ensures old(uxMessagesWaiting) < 1 ==> uxMessagesWaiting == old(uxMessagesWaiting) + 1 && pxMutexHolder == None
      ensures old(uxMessagesWaiting) >= 1 ==>
        uxMessagesWaiting == old(uxMessagesWaiting) && pxMutexHolder == old(pxMutexHolder)
    {
      if uxMessagesWaiting < 1 {
        pxMutexHolder := None;
        uxMessagesWaiting := uxMessagesWaiting + 1;
      }
    }

    /** With a block time over which no other task gives the mutex back. */
    method TakeMutexRecursive(t: Task, ghost s: State) returns (passed: bool, ghost run: seq<Step>)
      requires Represents(s) && Exclusive(s) && PcOf(s, t).Out?
      modifies this
      ensures Legal(s, run) && Represents(After(s, run)) && PcOf(After(s, run), t).Out?
      ensures passed <==> s.holder == None || s.holder == Some(t)
      ensures After(s, run).log == s.log + [if passed then Took(t) else TimedOut(t)]
      ensures passed ==> pxMutexHolder == Some(t) && uxMessagesWaiting == 0
      ensures passed && old(uxRecursiveCallCount) < 0xFFFF_FFFF ==>
        uxRecursiveCallCount == old(uxRecursiveCallCount) + 1
      ensures !passed ==> uxRecursiveCallCount == old(uxRecursiveCallCount) && pxMutexHolder == old(pxMutexHolder)
    {
      run := [Call(t, Take)];
      Extend(s, [], Call(t, Take));
      Extend(s, run, Compare(t));
      run := run + [Compare(t)];
      passed := pxMutexHolder == Some(t);
      if !passed {
        Extend(s, run, Acquire(t, true));
        run := run + [Acquire(t, true)];
        passed := SemaphoreTake(t);
      }
      if passed {
        Extend(s, run, Read(t));
        run := run + [Read(t)];
        Extend(s, run, Write(t));
        run := run + [Write(t)];
        uxRecursiveCallCount := Up(uxRecursiveCallCount);
      }
    }

    /** The critical section of xQueueSemaphoreTake on a mutex. */
    method SemaphoreTake(t: Task) returns (taken: bool)
      modifies this`uxMessagesWaiting, this`pxMutexHolder
      ensures taken == old(uxMessagesWaiting > 0)
      ensures pxMutexHolder == if taken then Some(t) else old(pxMutexHolder)
      ensures uxMessagesWaiting == old(uxMessagesWaiting) - if taken then 1 else 0
    {
      taken := uxMessagesWaiting > 0;
      if taken {
        uxMessagesWaiting := uxMessagesWaiting - 1;
        pxMutexHolder := Some(t);
      }
    }
  }
}
