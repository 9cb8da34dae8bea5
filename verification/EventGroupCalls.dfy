/** What the calls of event_groups.c do to each bit, and what they return. */
module EventGroupCalls {
  import opened Wrappers
  import opened EventBits
  import opened EventGroup

  /** All of the bits waited for are set, or one of them. */
  ghost predicate Met(bits: Bits, waitFor: Bits, all: bool)
    ensures Met(bits, waitFor, all) <==>
      if all then forall b: Bit :: b in waitFor ==> b in bits else exists b: Bit :: b in waitFor && b in bits
  {
    ConditionIs(bits, waitFor, all);
    TestWaitCondition(bits, waitFor, all)
  }

  /** Of the group only the bits have changed, by losing these. */
  ghost predicate Cleared(g: Group, g': Group, toClear: Bits) {
    g' == g.(bits := g'.bits) && forall b: Bit :: b in g'.bits <==> b in g.bits && b !in toClear
  }

  /** The call is over and has returned these bits; nobody else's call has changed. */
  ghost predicate HasReturned(s: State, s': State, t: Task, bits: Bits) {
    && PcOf(s', t).Out? && Returned(s', t) == Returned(s, t) + [bits]
    && forall u: Task :: u != t ==> PcOf(s', u) == PcOf(s, u) && Returned(s', u) == Returned(s, u)
  }

  /** The task is at the end of the list, with an item for these bits that says how it waits. */
  ghost predicate HasBlocked(s: State, s': State, t: Task, waitFor: Bits, clear: bool, all: bool) {
    && PcOf(s', t) == Blocked(waitFor, clear, all) && |s'.group.waiting| == |s.group.waiting| + 1
    && s'.group == s.group.(waiting := s'.group.waiting) && s'.group.waiting[..|s.group.waiting|] == s.group.waiting
    && var w := s'.group.waiting[|s.group.waiting|];
       && w.task == t && (forall b: Bit :: b < 24 ==> (b in w.value <==> b in waitFor))
       && (CLEAR_EVENTS_ON_EXIT in w.value <==> clear) && (WAIT_FOR_ALL in w.value <==> all)
       && UNBLOCKED_DUE_TO_BIT_SET !in w.value
  }

  lemma ClearBitsClears(s: State, t: Task, toClear: Bits)
    requires Enabled(s, Step.ClearBits(t, toClear))
    ensures var s' := Next(s, Step.ClearBits(t, toClear));
      Cleared(s.group, s'.group, toClear) && s' == s.(group := s'.group)
  {
  }

  /** A call that waits for any bit returns at once exactly when one of them is set, a call that waits for all exactly
      when each is; without a block time both return at once. They return the bits as they were, and clear the bits
      waited for exactly when they got them and were to. */
  lemma WaitBitsReturns(s: State, t: Task, waitFor: Bits, clear: bool, all: bool, blockTime: bool)
    requires Enabled(s, WaitBits(t, waitFor, clear, all, blockTime))
    ensures var s', met := Next(s, WaitBits(t, waitFor, clear, all, blockTime)), Met(s.group.bits, waitFor, all);
      if met || !blockTime then
        HasReturned(s, s', t, s.group.bits) && Cleared(s.group, s'.group, if met && clear then waitFor else {})
      else HasBlocked(s, s', t, waitFor, clear, all)
  {
  }

  /** The last step of xEventGroupSync: if all the bits waited for were there, or were set, it clears them, and returns
      what there was then; else it blocks for all of them, or returns what there is. */
  lemma SyncReturns(s: State, t: Task)
    requires Enabled(s, SyncDecide(t)) && NoControl(PcOf(s, t).waitFor)
    ensures var s', pc := Next(s, SyncDecide(t)), PcOf(s, t);
      if forall b: Bit :: b in pc.waitFor ==> b in pc.original || b in pc.toSet then
        HasReturned(s, s', t, pc.original + pc.toSet) && Cleared(s.group, s'.group, pc.waitFor)
      else if pc.blockTime then HasBlocked(s, s', t, pc.waitFor, true, true)
      else HasReturned(s, s', t, s.group.bits) && s'.group == s.group
  {
    var pc := PcOf(s, t);
    assert (forall b: Bit :: b in pc.waitFor ==> b in pc.original || b in pc.toSet)
      <==> pc.waitFor <= pc.original + pc.toSet;
  }

  /** A task that runs again returns the bits it was handed, or, timed out, the bits there are; only then may it have
      bits to clear, and does exactly when they have come after all. */
  lemma RunAgainReturns(s: State, t: Task)
    requires Enabled(s, RunAgain(t)) && NoControl(s.group.bits)
    ensures var s', pc, value := Next(s, RunAgain(t)), PcOf(s, t), s.group.values[t];
      if UNBLOCKED_DUE_TO_BIT_SET in value then
        HasReturned(s, s', t, set b: Bit | b in value && b < 24) && s'.group == s.group
      else
        && HasReturned(s, s', t, s.group.bits)
        && Cleared(s.group, s'.group, if pc.clear && Met(s.group.bits, pc.waitFor, pc.all) then pc.waitFor else {})
  {
    var value := s.group.values[t];
    assert Events(value) == set b: Bit | b in value && b < 24;
    assert Events(s.group.bits) == s.group.bits;
  }

  /** A tick takes just this task off the list, its item as it was. */
  lemma TimeOutTakesOne(s: State, t: Task, at: nat)
    requires Enabled(s, TimeOut(t, at))
    ensures var s' := Next(s, TimeOut(t, at));
      && s' == s.(group := s'.group) && s'.group.bits == s.group.bits
      && |s'.group.waiting| == |s.group.waiting| - 1
      && s.group.waiting == s'.group.waiting[..at] + [s.group.waiting[at]] + s'.group.waiting[at..]
      && s'.group.values == s.group.values[t := s.group.waiting[at].value]
  {
  }

  // ----- Bits over runs -----

  /** Somebody may set bit b: by a step of the run, or in a call of xEventGroupSync that is under way. */
  ghost predicate MaySet(s: State, b: Bit) {
    exists t :: t in s.pcs && s.pcs[t].Setting? && b in s.pcs[t].toSet
  }

  predicate AsksToSet(e: Step, b: Bit) {
    match e
    case SetBits(_, toSet) => b in toSet
    case SyncStart(_, toSet, _, _) => b in toSet
    case _ => false
  }

  lemma StaysClearStep(s: State, e: Step, b: Bit)
    requires Enabled(s, e) && b !in s.group.bits && !MaySet(s, b) && !AsksToSet(e, b)
    ensures b !in Next(s, e).group.bits && !MaySet(Next(s, e), b)
  {
    if e.SyncSet? {
      assert b !in s.pcs[e.t].toSet;
      SetBitsClears(s.group, s.pcs[e.t].toSet, b);
    } else if e.SetBits? {
      SetBitsClears(s.group, e.toSet, b);
    }
    var s' := Next(s, e);
    forall t | t in s'.pcs && s'.pcs[t].Setting? ensures b !in s'.pcs[t].toSet {
      if t != e.t || !e.SyncStart? { assert t in s.pcs && s.pcs[t] == s'.pcs[t]; }
    }
  }

  /** A bit that nobody sets stays clear. */
  lemma {:induction false} StaysClear(s: State, run: seq<Step>, b: Bit)
    requires Legal(s, run) && b !in s.group.bits && !MaySet(s, b)
    requires forall e :: e in run ==> !AsksToSet(e, b)
    ensures b !in After(s, run).group.bits
    decreases |run|
  {
    if run != [] {
      assert run[0] in run && forall e :: e in run[1..] ==> e in run;
      StaysClearStep(s, run[0], b);
      StaysClear(Next(s, run[0]), run[1..], b);
    }
  }

  /** A call, or a task waiting, that clears bit b when it gets what it waits for. */
  predicate ClearsInCall(pc: Pc, b: Bit) {
    match pc
    case Out => false
    case Setting(_, waitFor, _, _) => b in waitFor
    case Deciding(_, waitFor, _, _) => b in waitFor
    case Blocked(waitFor, clear, _) => clear && b in waitFor
  }

  predicate AsksToClear(e: Step, b: Bit) {
    match e
    case ClearBits(_, toClear) => b in toClear
    case WaitBits(_, waitFor, clear, _, _) => clear && b in waitFor
    case SyncStart(_, _, waitFor, _) => b in waitFor
    case _ => false
  }

  ghost predicate MayClear(s: State, b: Bit) {
    exists t :: t in s.pcs && ClearsInCall(s.pcs[t], b)
  }

  lemma StaysSetStep(s: State, e: Step, b: Bit)
    requires Sound(s) && Enabled(s, e) && b in s.group.bits && !MayClear(s, b) && !AsksToClear(e, b)
    ensures b in Next(s, e).group.bits && !MayClear(Next(s, e), b)
  {
    if e.SyncSet? || e.SetBits? {
      forall w | w in s.group.waiting && CLEAR_EVENTS_ON_EXIT in w.value && b < 24 ensures b !in w.value {
        assert WaiterOk(s, w) && !ClearsInCall(s.pcs[w.task], b);
      }
      SetBitsClears(s.group, if e.SetBits? then e.toSet else PcOf(s, e.t).toSet, b);
    }
    ClearsOnlyMover(s, e, b);
    assert e.t in s.pcs ==> !ClearsInCall(s.pcs[e.t], b);
  }

  lemma ClearsOnlyMover(s: State, e: Step, b: Bit)
    requires Enabled(s, e) && !MayClear(s, b) && !AsksToClear(e, b)
    ensures !MayClear(Next(s, e), b)
  {
    var s' := Next(s, e);
    forall t | t in s'.pcs ensures !ClearsInCall(s'.pcs[t], b) {
      assert t in s.pcs ==> !ClearsInCall(s.pcs[t], b);
    }
  }

  /** A bit that nobody clears stays set, over every interleaving. */
  lemma {:induction false} StaysSet(s: State, run: seq<Step>, b: Bit)
    requires Sound(s) && Legal(s, run) && b in s.group.bits && !MayClear(s, b)
    requires forall e :: e in run ==> !AsksToClear(e, b)
    ensures b in After(s, run).group.bits
    decreases |run|
  {
    if run != [] {
      assert run[0] in run && forall e :: e in run[1..] ==> e in run;
      StaysSetStep(s, run[0], b);
      SoundKept(s, run[0]);
      StaysSet(Next(s, run[0]), run[1..], b);
    }
  }
}
