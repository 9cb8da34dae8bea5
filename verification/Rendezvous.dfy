/** Tasks that keep meeting at xEventGroupSync. */
module Rendezvous {
  import opened EventBits
  import opened EventGroup

  predicate Apart(a: Bits, b: Bits) { a * b == {} }

  /** Each party has bits of its own, and together they are the bits they all wait for. */
  ghost predicate Parties(own: map<Task, Bits>, all: Bits) {
    && NoControl(all)
    && Shares(own, all)
    && (forall t, u :: BitsApart(own, t, u))
    && (forall b :: Owned(own, all, b))
  }

  ghost predicate BitsApart(own: map<Task, Bits>, t: Task, u: Task) {
    t in own && u in own && t != u ==> Apart(own[t], own[u])
  }

  ghost predicate Owned(own: map<Task, Bits>, all: Bits, b: Bit) {
    b in all ==> exists t :: t in own && b in own[t]
  }

  ghost predicate Shares(own: map<Task, Bits>, all: Bits) {
    forall t :: t in own ==> own[t] != {} && own[t] <= all
  }

  /** The parties only synchronise, without a time-out; no other task sets or clears their bits. */
  predicate Permitted(own: map<Task, Bits>, all: Bits, e: Step) {
    if e.t in own then
      e == SyncStart(e.t, own[e.t], all, true) || e.SyncSet? || e.SyncDecide? || e.RunAgain?
    else
      match e
      case SetBits(_, toSet) => Apart(toSet, all)
      case ClearBits(_, toClear) => Apart(toClear, all)
      case WaitBits(_, waitFor, clear, _, _) => clear ==> Apart(waitFor, all)
      case SyncStart(_, toSet, waitFor, _) => Apart(toSet, all) && Apart(waitFor, all)
      case _ => true
  }

  /** Where a party is in round r, its bits being mine: it has entered the round, and then its bits are set until all
      have, or it has not, and they are clear. */
  ghost predicate PartyOk(mine: Bits, all: Bits, s: State, r: nat, t: Task) {
    var entered, returned := Entered(s, t), |Returned(s, t)|;
    match PcOf(s, t)
    case Out => entered == returned == r && Apart(mine, s.group.bits)
    case Setting(toSet, waitFor, blockTime, _) =>
      && toSet == mine && waitFor == all && blockTime
      && entered == returned + 1 == r + 1 && Apart(mine, s.group.bits)
    case Deciding(toSet, waitFor, blockTime, original) =>
      && toSet == mine && waitFor == all && blockTime && entered == returned + 1
      && if all <= original + toSet then entered == r else entered == r + 1 && mine * s.group.bits == mine
    case Blocked(waitFor, clear, every) =>
      && waitFor == all && clear && every && entered == returned + 1
      && if Waits(s.group, t) then entered == r + 1 && mine * s.group.bits == mine
         else entered == r && Apart(mine, s.group.bits) && t in s.group.values && Handed(s.group.values[t], all)
  }

  predicate Handed(value: Bits, all: Bits) {
    UNBLOCKED_DUE_TO_BIT_SET in value && all <= value
  }

  /** What another task is about to write. */
  ghost predicate OtherOk(all: Bits, pc: Pc) {
    match pc
    case Out => true
    case Setting(toSet, waitFor, _, _) => Apart(toSet, all) && Apart(waitFor, all)
    case Deciding(toSet, waitFor, _, _) => Apart(toSet, all) && Apart(waitFor, all)
    case Blocked(waitFor, clear, _) => clear ==> Apart(waitFor, all)
  }

  ghost predicate Met(all: Bits, returned: seq<Bits>) {
    forall v :: v in returned ==> all <= v
  }

  /** A party that has just completed the round finds every other party's bits cleared. */
  ghost predicate Completed(own: map<Task, Bits>, all: Bits, s: State, t: Task) {
    PcOf(s, t).Deciding? && all <= PcOf(s, t).original + PcOf(s, t).toSet ==>
      forall u :: u in own && u != t ==> Apart(own[u], s.group.bits)
  }

  ghost predicate Round(own: map<Task, Bits>, all: Bits, s: State, r: nat) {
    && Sound(s)
    && (forall t :: t in own ==> PartyOk(own[t], all, s, r, t) && Completed(own, all, s, t) && Met(all, Returned(s, t)))
    && (forall t :: t in s.pcs && t !in own ==> OtherOk(all, s.pcs[t]))
  }

  /** A step of t moves nobody else. */
  ghost predicate OnlyMoves(s: State, s': State, t: Task) {
    && s'.pcs.Keys <= s.pcs.Keys + {t}
    && forall u :: u != t ==> Untouched(s, s', u)
  }

  ghost predicate Untouched(s: State, s': State, u: Task) {
    && PcOf(s', u) == PcOf(s, u) && Entered(s', u) == Entered(s, u) && Returned(s', u) == Returned(s, u)
    && (Waits(s'.group, u) <==> Waits(s.group, u))
    && (u in s.group.values ==> u in s'.group.values && s'.group.values[u] == s.group.values[u])
  }

  lemma PartyUntouched(mine: Bits, all: Bits, s: State, s': State, r: nat, u: Task)
    requires PartyOk(mine, all, s, r, u) && Untouched(s, s', u) && mine * s'.group.bits == mine * s.group.bits
    ensures PartyOk(mine, all, s', r, u)
  {
  }

  /** Only the task that has suspended the scheduler is in the middle of xEventGroupSync. */
  lemma OnlyMoverDecides(s: State, t: Task, u: Task)
    requires Sound(s) && MayRun(s, t) && t != u
    ensures !PcOf(s, u).Setting? && !PcOf(s, u).Deciding?
  {
    if u in s.pcs { assert PcOk(s, u, s.pcs[u]); }
  }

  lemma RoundKept(own: map<Task, Bits>, all: Bits, s: State, s': State, r: nat, t: Task)
    requires Round(own, all, s, r) && Sound(s') && MayRun(s, t)
    requires s'.pcs.Keys <= s.pcs.Keys + {t} && forall u :: u != t ==> PcOf(s', u) == PcOf(s, u)
    requires forall u :: u in own && u != t ==> Untouched(s, s', u) && own[u] * s'.group.bits == own[u] * s.group.bits
    requires if t in own then PartyOk(own[t], all, s', r, t) && Completed(own, all, s', t) && Met(all, Returned(s', t))
             else OtherOk(all, PcOf(s', t))
    ensures Round(own, all, s', r)
  {
    forall u | u in own ensures PartyOk(own[u], all, s', r, u) && Completed(own, all, s', u)
      && Met(all, Returned(s', u)) {
      if u != t {
        PartyUntouched(own[u], all, s, s', r, u);
        OnlyMoverDecides(s, t, u);
      }
    }
    forall u | u in s'.pcs && u !in own ensures OtherOk(all, s'.pcs[u]) {
      if u != t { assert PcOf(s', u) == PcOf(s, u); }
    }
  }

  // ----- Steps that set no bits -----

  lemma StepOnlyMoves(s: State, e: Step)
    requires Enabled(s, e) && !e.SetBits? && !e.SyncSet?
    ensures OnlyMoves(s, Next(s, e), e.t)
  {
    var s' := Next(s, e);
    if e.TimeOut? {
      TimeOutOnlyMoves(s, e.t, e.at);
    } else if e.WaitBits? {
      WaitOnlyMoves(s, e);
    } else if e.SyncDecide? {
      DecideOnlyMoves(s, e.t);
    } else {
      MapsOnlyMove(s, s', e.t);
    }
  }

  lemma WaitOnlyMoves(s: State, e: Step)
    requires Enabled(s, e) && e.WaitBits?
    ensures OnlyMoves(s, Next(s, e), e.t)
  {
    if TestWaitCondition(s.group.bits, e.waitFor, e.all) || !e.blockTime {
      WaitReturns(s, e);
    } else {
      MapsOnlyMove(s, Next(s, e), e.t);
    }
  }

  lemma WaitReturns(s: State, e: Step)
    requires Enabled(s, e) && e.WaitBits? && (TestWaitCondition(s.group.bits, e.waitFor, e.all) || !e.blockTime)
    ensures OnlyMoves(s, Next(s, e), e.t)
  {
    var s' := Next(s, e);
    assert s'.pcs == s.pcs[e.t := Out] && s'.entered == s.entered && s'.group.waiting == s.group.waiting;
    MapsOnlyMove(s, s', e.t);
  }

  lemma DecideOnlyMoves(s: State, t: Task)
    requires Enabled(s, SyncDecide(t))
    ensures OnlyMoves(s, Next(s, SyncDecide(t)), t)
  {
    MapsOnlyMove(s, Next(s, SyncDecide(t)), t);
  }

  lemma TimeOutOnlyMoves(s: State, t: Task, at: nat)
    requires Enabled(s, TimeOut(t, at))
    ensures OnlyMoves(s, Next(s, TimeOut(t, at)), t)
  {
    var was := s.group.waiting;
    assert was == was[..at] + [was[at]] + was[at + 1..];
  }

  ghost predicate Differ<T>(m: map<Task, T>, m': map<Task, T>, t: Task) {
    m' == m || (t in m' && m' == m[t := m'[t]])
  }

  lemma MapsOnlyMove(s: State, s': State, t: Task)
    requires Differ(s.pcs, s'.pcs, t) && Differ(s.entered, s'.entered, t) && Differ(s.returned, s'.returned, t)
    requires s'.group.values == s.group.values
    requires s'.group.waiting == s.group.waiting
      || exists w: Waiter :: w.task == t && s'.group.waiting == s.group.waiting + [w]
    ensures OnlyMoves(s, s', t)
  {
  }

  /** Bits are only cleared, and none of a party's by another task. */
  lemma OtherClears(all: Bits, s: State, e: Step)
    requires Enabled(s, e) && !e.SetBits? && !e.SyncSet? && OtherOk(all, PcOf(s, e.t)) && Permitted(map[], all, e)
    ensures s.group.bits * all == Next(s, e).group.bits * all && OtherOk(all, PcOf(Next(s, e), e.t))
  {
    if e.ClearBits? {
      ClearApart(s.group.bits, e.toClear, all);
    } else if e.WaitBits? {
      OtherClearsByWait(all, s, e);
    } else if e.SyncDecide? || (e.RunAgain? && PcOf(s, e.t).clear) {
      ClearApart(s.group.bits, PcOf(s, e.t).waitFor, all);
    }
  }

  lemma OtherClearsByWait(all: Bits, s: State, e: Step)
    requires Enabled(s, e) && e.WaitBits? && Permitted(map[], all, e)
    ensures s.group.bits * all == Next(s, e).group.bits * all && OtherOk(all, PcOf(Next(s, e), e.t))
  {
    if e.clear { ClearApart(s.group.bits, e.waitFor, all); }
  }

  lemma ClearApart(bits: Bits, mask: Bits, all: Bits)
    requires Apart(mask, all)
    ensures (bits - mask) * all == bits * all
  {
    assert forall b :: b in bits * all ==> b !in mask * all;
  }

  lemma RoundKeptByOther(own: map<Task, Bits>, all: Bits, s: State, r: nat, e: Step)
    requires Shares(own, all) && Round(own, all, s, r) && Enabled(s, e) && Permitted(own, all, e) && e.t !in own
    requires !e.SetBits? && !e.SyncSet?
    ensures Round(own, all, Next(s, e), r)
  {
    SoundKept(s, e);
    StepOnlyMoves(s, e);
    OtherLeavesParts(own, all, s, r, e);
    KeptByOther(own, all, s, Next(s, e), r, e.t);
  }

  lemma KeptByOther(own: map<Task, Bits>, all: Bits, s: State, s': State, r: nat, t: Task)
    requires Round(own, all, s, r) && Sound(s') && MayRun(s, t) && OnlyMoves(s, s', t) && t !in own
    requires OtherOk(all, PcOf(s', t)) && forall u :: u in own ==> own[u] * s'.group.bits == own[u] * s.group.bits
    ensures Round(own, all, s', r)
  {
    forall u: Task | u != t ensures PcOf(s', u) == PcOf(s, u) { assert Untouched(s, s', u); }
    forall u | u in own ensures Untouched(s, s', u) { assert u != t; }
    RoundKept(own, all, s, s', r, t);
  }

  lemma OtherLeavesParts(own: map<Task, Bits>, all: Bits, s: State, r: nat, e: Step)
    requires Shares(own, all) && Round(own, all, s, r) && Enabled(s, e) && Permitted(own, all, e) && e.t !in own
    requires !e.SetBits? && !e.SyncSet?
    ensures forall u :: u in own ==> own[u] * Next(s, e).group.bits == own[u] * s.group.bits
    ensures OtherOk(all, PcOf(Next(s, e), e.t))
  {
    OtherIs(own, all, s, r, e.t);
    OtherClears(all, s, e);
    PartsOf(own, all, s.group.bits, Next(s, e).group.bits);
  }

  lemma OtherIs(own: map<Task, Bits>, all: Bits, s: State, r: nat, t: Task)
    requires Round(own, all, s, r) && t !in own
    ensures OtherOk(all, PcOf(s, t))
  {
  }

  lemma PartsOf(own: map<Task, Bits>, all: Bits, a: Bits, b: Bits)
    requires Shares(own, all) && a * all == b * all
    ensures forall u :: u in own ==> own[u] * b == own[u] * a
  {
    forall u | u in own ensures own[u] * b == own[u] * a { PartOf(own[u], all, a, b); }
  }

  lemma PartOf(mine: Bits, all: Bits, a: Bits, b: Bits)
    requires mine <= all && a * all == b * all
    ensures mine * a == mine * b
  {
    assert mine * a == mine * (a * all) && mine * b == mine * (b * all);
  }

  lemma RoundKeptByStart(own: map<Task, Bits>, all: Bits, s: State, r: nat, t: Task)
    requires Shares(own, all) && Round(own, all, s, r) && t in own && Enabled(s, SyncStart(t, own[t], all, true))
    ensures Round(own, all, Next(s, SyncStart(t, own[t], all, true)), r)
  {
    var s' := Next(s, SyncStart(t, own[t], all, true));
    SoundKept(s, SyncStart(t, own[t], all, true));
    StepOnlyMoves(s, SyncStart(t, own[t], all, true));
    assert PartyOk(own[t], all, s, r, t);
    RoundKept(own, all, s, s', r, t);
  }

  /** A party returns from the call with all the bits: at once, having completed the round; */
  lemma RoundKeptByDecision(own: map<Task, Bits>, all: Bits, s: State, r: nat, t: Task)
    requires Shares(own, all) && Round(own, all, s, r) && t in own && Enabled(s, SyncDecide(t))
    ensures Round(own, all, Next(s, SyncDecide(t)), r)
  {
    var s', pc := Next(s, SyncDecide(t)), s.pcs[t];
    SoundKept(s, SyncDecide(t));
    StepOnlyMoves(s, SyncDecide(t));
    assert PartyOk(own[t], all, s, r, t) && Met(all, Returned(s, t)) && Completed(own, all, s, t);
    if all <= pc.original + pc.toSet {
      ClearedAll(own[t], all, s.group.bits);
      forall u | u in own && u != t ensures own[u] * s'.group.bits == own[u] * s.group.bits {
        ClearedAll(own[u], all, s.group.bits);
      }
    } else {
      assert Waiter(t, ItemValue(all, true, true)) in s'.group.waiting;
    }
    RoundKept(own, all, s, s', r, t);
  }

  lemma ClearedAll(mine: Bits, all: Bits, bits: Bits)
    requires mine <= all
    ensures Apart(mine, bits - all)
  {
  }

  /** or once it runs again. */
  lemma RoundKeptByRunAgain(own: map<Task, Bits>, all: Bits, s: State, r: nat, t: Task)
    requires Shares(own, all) && Round(own, all, s, r) && t in own && Enabled(s, RunAgain(t))
    ensures Round(own, all, Next(s, RunAgain(t)), r)
  {
    var s' := Next(s, RunAgain(t));
    SoundKept(s, RunAgain(t));
    StepOnlyMoves(s, RunAgain(t));
    assert PartyOk(own[t], all, s, r, t) && Met(all, Returned(s, t));
    RoundKept(own, all, s, s', r, t);
  }

  // ----- Steps that set bits -----

  lemma WaiterAsks(own: map<Task, Bits>, all: Bits, s: State, r: nat, w: Waiter, now: Bits)
    requires Round(own, all, s, r) && w in s.group.waiting
    ensures if w.task in own then Events(w.value) == all && (Clears(w, now) <==> all <= now)
      && (Satisfied(w, now) <==> all <= now)
            else Clears(w, now) ==> Apart(Events(w.value), all)
  {
    assert WaiterOk(s, w);
    var pc := s.pcs[w.task];
    assert PcOk(s, w.task, pc);
    assert Events(ItemValue(pc.waitFor, pc.clear, pc.all)) == pc.waitFor;
    if w.task in own {
      assert PartyOk(own[w.task], all, s, r, w.task);
    } else {
      assert OtherOk(all, pc);
    }
  }

  /** Bits that do not complete the round wake no party and clear none of their bits. */
  lemma IncompleteClears(own: map<Task, Bits>, all: Bits, s: State, r: nat, toSet: Bits)
    requires Round(own, all, s, r) && !(all <= s.group.bits + toSet)
    ensures EventBits.SetBits(s.group, toSet).bits * all == (s.group.bits + toSet) * all
  {
    var now := s.group.bits + toSet;
    forall b | b in ClearMask(s.group.waiting, now) ensures b !in all {
      var w :| w in s.group.waiting && Clears(w, now) && b in Events(w.value);
      WaiterAsks(own, all, s, r, w, now);
      assert b in all ==> b in Events(w.value) * all;
    }
  }

  lemma IncompleteWakes(own: map<Task, Bits>, all: Bits, s: State, r: nat, toSet: Bits, u: Task)
    requires Round(own, all, s, r) && !(all <= s.group.bits + toSet) && u in own
    ensures var g, g' := s.group, EventBits.SetBits(s.group, toSet);
      (Waits(g', u) <==> Waits(g, u)) && (u in g.values ==> u in g'.values && g'.values[u] == g.values[u])
  {
    var now := s.group.bits + toSet;
    forall w | w in s.group.waiting && w.task == u ensures w in Kept(s.group.waiting, now) && !Satisfied(w, now) {
      WaiterAsks(own, all, s, r, w, now);
      KeptIn(s.group.waiting, now, w);
    }
    forall w | w in Kept(s.group.waiting, now) ensures w in s.group.waiting { KeptIn(s.group.waiting, now, w); }
  }

  /** Bits that do complete it wake every waiting party with all the bits. */
  lemma CompleteWakes(own: map<Task, Bits>, all: Bits, s: State, r: nat, toSet: Bits, u: Task)
    requires Round(own, all, s, r) && all <= s.group.bits + toSet && u in own && Waits(s.group, u)
    ensures var g' := EventBits.SetBits(s.group, toSet);
      !Waits(g', u) && u in g'.values && Handed(g'.values[u], all) && Apart(g'.bits, all)
  {
    var now := s.group.bits + toSet;
    var w :| w in s.group.waiting && w.task == u;
    WaiterAsks(own, all, s, r, w, now);
    assert u in Woken(s.group.waiting, now);
    assert all <= ClearMask(s.group.waiting, now);
    forall v | v in Kept(s.group.waiting, now) ensures v.task != u {
      KeptIn(s.group.waiting, now, v);
      if v.task == u { WaiterAsks(own, all, s, r, v, now); }
    }
  }

  lemma SetLeavesParty(own: map<Task, Bits>, all: Bits, s: State, r: nat, e: Step, toSet: Bits, u: Task)
    requires Shares(own, all) && Round(own, all, s, r) && Enabled(s, e) && Sets(s, e, toSet)
    requires !(all <= s.group.bits + toSet) && u in own && u != e.t && Apart(own[u], toSet)
    ensures Untouched(s, Next(s, e), u) && own[u] * Next(s, e).group.bits == own[u] * s.group.bits
  {
    IncompleteClears(own, all, s, r, toSet);
    IncompleteWakes(own, all, s, r, toSet, u);
    PartOf(own[u], all, Next(s, e).group.bits, s.group.bits + toSet);
    assert own[u] * (s.group.bits + toSet) == own[u] * s.group.bits + own[u] * toSet;
  }

  ghost predicate Sets(s: State, e: Step, toSet: Bits) {
    (e.SetBits? && toSet == e.toSet) || (e.SyncSet? && PcOf(s, e.t).Setting? && toSet == PcOf(s, e.t).toSet)
  }

  lemma RoundKeptByOtherSet(own: map<Task, Bits>, all: Bits, s: State, r: nat, e: Step, toSet: Bits)
    requires Shares(own, all) && Round(own, all, s, r) && Enabled(s, e) && Permitted(own, all, e)
    requires Sets(s, e, toSet) && e.t !in own
    ensures Round(own, all, Next(s, e), r)
  {
    assert OtherOk(all, PcOf(s, e.t));
    SoundKept(s, e);
    forall u | u in own ensures Untouched(s, Next(s, e), u) && own[u] * Next(s, e).group.bits == own[u] * s.group.bits {
      NotAll(own[u], all, s, r, u, toSet);
      SetLeavesParty(own, all, s, r, e, toSet, u);
    }
    RoundKept(own, all, s, Next(s, e), r, e.t);
  }

  /** The bits of a party that waits, or has not entered, show that the round is not complete. */
  lemma NotAll(mine: Bits, all: Bits, s: State, r: nat, u: Task, toSet: Bits)
    requires mine != {} && mine <= all && Apart(toSet, all)
    requires Sound(s) && PartyOk(mine, all, s, r, u) && !PcOf(s, u).Deciding?
    ensures Apart(mine, toSet) && !(all <= s.group.bits + toSet)
  {
  }

  /** A party sets its bits, and some are still missing. */
  lemma RoundGoesOn(own: map<Task, Bits>, all: Bits, s: State, r: nat, t: Task)
    requires Parties(own, all) && Round(own, all, s, r) && t in own && Enabled(s, SyncSet(t))
    requires !(all <= s.group.bits + own[t])
    ensures Round(own, all, Next(s, SyncSet(t)), r)
  {
    var s' := Next(s, SyncSet(t));
    SoundKept(s, SyncSet(t));
    assert PartyOk(own[t], all, s, r, t) && Met(all, Returned(s, t)) && PcOk(s, t, s.pcs[t]);
    forall u | u in own && u != t ensures Untouched(s, s', u) && own[u] * s'.group.bits == own[u] * s.group.bits {
      assert BitsApart(own, u, t);
      SetLeavesParty(own, all, s, r, SyncSet(t), own[t], u);
    }
    IncompleteClears(own, all, s, r, own[t]);
    PartOf(own[t], all, s'.group.bits, s.group.bits + own[t]);
    assert own[t] * (s.group.bits + own[t]) == own[t];
    RoundKept(own, all, s, s', r, t);
  }

  /** While a party is setting its bits, another either waits, or has not entered the round. */
  lemma WaitsOrApart(mine: Bits, all: Bits, s: State, r: nat, t: Task, u: Task)
    requires Sound(s) && MayRun(s, t) && u != t && PartyOk(mine, all, s, r, u)
    ensures if Waits(s.group, u) then Entered(s, u) == r + 1 == |Returned(s, u)| + 1 && PcOf(s, u).Blocked?
            else Apart(mine, s.group.bits)
  {
    OnlyMoverDecides(s, t, u);
    if Waits(s.group, u) {
      var w :| w in s.group.waiting && w.task == u;
      assert WaiterOk(s, w);
    }
  }

  /** A party sets its bits, and they were the last: the next round begins. */
  lemma RoundCompletes(own: map<Task, Bits>, all: Bits, s: State, r: nat, t: Task)
    requires Parties(own, all) && Round(own, all, s, r) && t in own && Enabled(s, SyncSet(t))
    requires all <= s.group.bits + own[t]
    ensures Round(own, all, Next(s, SyncSet(t)), r + 1)
    ensures forall u :: u in own && u != t ==> Waits(s.group, u) && !Waits(Next(s, SyncSet(t)).group, u)
  {
    var s' := Next(s, SyncSet(t));
    SoundKept(s, SyncSet(t));
    assert PartyOk(own[t], all, s, r, t) && PcOk(s, t, s.pcs[t]);
    OthersReleased(own, all, s, r, t);
    AllOk(own, all, s, s', r, t);
  }

  lemma AllOk(own: map<Task, Bits>, all: Bits, s: State, s': State, r: nat, t: Task)
    requires Round(own, all, s, r) && t in own && MayRun(s, t) && Sound(s') && PcOf(s', t).Deciding?
    requires forall u :: u in own && u != t ==> PartyOk(own[u], all, s', r + 1, u) && Apart(own[u], s'.group.bits)
    requires PartyOk(own[t], all, s', r + 1, t) && s'.pcs.Keys <= s.pcs.Keys + {t} && s'.returned == s.returned
    requires forall u :: u != t ==> PcOf(s', u) == PcOf(s, u)
    ensures Round(own, all, s', r + 1)
  {
    forall u | u in own ensures PartyOk(own[u], all, s', r + 1, u) && Completed(own, all, s', u)
      && Met(all, Returned(s', u)) {
      assert Met(all, Returned(s, u));
      if u != t { OnlyMoverDecides(s, t, u); }
    }
    forall u | u in s'.pcs && u !in own ensures OtherOk(all, s'.pcs[u]) {
      assert PcOf(s', u) == PcOf(s, u);
    }
  }

  lemma OthersReleased(own: map<Task, Bits>, all: Bits, s: State, r: nat, t: Task)
    requires Parties(own, all) && Round(own, all, s, r) && t in own && Enabled(s, SyncSet(t))
    requires all <= s.group.bits + own[t] && PcOf(s, t).toSet == own[t]
    ensures var s' := Next(s, SyncSet(t));
      forall u :: u in own && u != t ==>
        PartyOk(own[u], all, s', r + 1, u) && Apart(own[u], s'.group.bits) && Waits(s.group, u) && !Waits(s'.group, u)
  {
    forall u | u in own && u != t
      ensures var s' := Next(s, SyncSet(t));
        PartyOk(own[u], all, s', r + 1, u) && Apart(own[u], s'.group.bits) && Waits(s.group, u) && !Waits(s'.group, u)
    {
      PartyReleased(own, all, s, r, t, u);
    }
  }

  lemma MustWait(own: map<Task, Bits>, all: Bits, s: State, r: nat, t: Task, u: Task)
    requires Parties(own, all) && Round(own, all, s, r) && t in own && MayRun(s, t) && u in own && u != t
    requires all <= s.group.bits + own[t]
    ensures Waits(s.group, u) && Entered(s, u) == r + 1 == |Returned(s, u)| + 1 && PcOf(s, u).Blocked?
  {
    assert PartyOk(own[u], all, s, r, u);
    WaitsOrApart(own[u], all, s, r, t, u);
    assert BitsApart(own, u, t);
    SomeBitSet(own[u], own[t], all, s.group.bits);
  }

  lemma SomeBitSet(mine: Bits, other: Bits, all: Bits, bits: Bits)
    requires mine != {} && mine <= all <= bits + other && Apart(mine, other)
    ensures !Apart(mine, bits)
  {
    var b :| b in mine;
    assert b !in mine * other;
    assert b in mine * bits;
  }

  lemma PartyReleased(own: map<Task, Bits>, all: Bits, s: State, r: nat, t: Task, u: Task)
    requires Parties(own, all) && Round(own, all, s, r) && t in own && Enabled(s, SyncSet(t)) && u in own && u != t
    requires all <= s.group.bits + own[t] && PcOf(s, t).toSet == own[t]
    ensures Waits(s.group, u) && !Waits(Next(s, SyncSet(t)).group, u)
    ensures PartyOk(own[u], all, Next(s, SyncSet(t)), r + 1, u) && Apart(own[u], Next(s, SyncSet(t)).group.bits)
  {
    var s' := Next(s, SyncSet(t));
    MustWait(own, all, s, r, t, u);
    assert PartyOk(own[u], all, s, r, u);
    CompleteWakes(own, all, s, r, own[t], u);
    PartOf(own[u], all, s'.group.bits, {});
    SetLeavesCall(s, t, u);
    PartyMovesOn(own[u], all, s, s', r, u);
  }

  lemma SetLeavesCall(s: State, t: Task, u: Task)
    requires Enabled(s, SyncSet(t)) && u != t
    ensures var s' := Next(s, SyncSet(t));
      && s'.group == EventBits.SetBits(s.group, PcOf(s, t).toSet)
      && PcOf(s', u) == PcOf(s, u) && Entered(s', u) == Entered(s, u) && Returned(s', u) == Returned(s, u)
  {
  }

  lemma PartyMovesOn(mine: Bits, all: Bits, s: State, s': State, r: nat, u: Task)
    requires PartyOk(mine, all, s, r, u) && PcOf(s, u).Blocked? && Entered(s, u) == r + 1
    requires PcOf(s', u) == PcOf(s, u) && Entered(s', u) == Entered(s, u) && Returned(s', u) == Returned(s, u)
    requires !Waits(s'.group, u) && Apart(mine, s'.group.bits) && u in s'.group.values
      && Handed(s'.group.values[u], all)
    ensures PartyOk(mine, all, s', r + 1, u)
  {
  }

  lemma RoundStep(own: map<Task, Bits>, all: Bits, s: State, r: nat, e: Step) returns (r': nat)
    requires Parties(own, all) && Round(own, all, s, r) && Enabled(s, e) && Permitted(own, all, e)
    ensures Round(own, all, Next(s, e), r') && r <= r' <= r + 1
  {
    r' := r;
    if e.t !in own {
      if e.SetBits? {
        RoundKeptByOtherSet(own, all, s, r, e, e.toSet);
      } else if e.SyncSet? {
        RoundKeptByOtherSet(own, all, s, r, e, PcOf(s, e.t).toSet);
      } else {
        RoundKeptByOther(own, all, s, r, e);
      }
    } else if e.SyncStart? {
      RoundKeptByStart(own, all, s, r, e.t);
    } else if e.SyncDecide? {
      RoundKeptByDecision(own, all, s, r, e.t);
    } else if e.RunAgain? {
      RoundKeptByRunAgain(own, all, s, r, e.t);
    } else if all <= s.group.bits + own[e.t] {
      RoundCompletes(own, all, s, r, e.t);
      r' := r + 1;
    } else {
      RoundGoesOn(own, all, s, r, e.t);
    }
  }

  lemma {:induction false} RoundRun(own: map<Task, Bits>, all: Bits, s: State, r: nat, run: seq<Step>) returns (r': nat)
    requires Parties(own, all) && Round(own, all, s, r) && Legal(s, run)
    requires forall e :: e in run ==> Permitted(own, all, e)
    ensures Round(own, all, After(s, run), r')
    decreases |run|
  {
    r' := r;
    if run != [] {
      r' := RoundStep(own, all, s, r, run[0]);
      r' := RoundRun(own, all, Next(s, run[0]), r', run[1..]);
    }
  }

  /** The rendezvous: no call of a party returns before every party has entered the call of the same number; all
      bits are in every value returned. */
  lemma NobodyLeavesEarly(own: map<Task, Bits>, all: Bits, run: seq<Step>, t: Task, u: Task)
    requires Parties(own, all) && Legal(Initial, run) && t in own && u in own
    requires forall e :: e in run ==> Permitted(own, all, e)
    ensures var s := After(Initial, run);
      && |Returned(s, t)| <= Entered(s, u)
      && (forall v :: v in Returned(s, t) ==> all <= v)
      && Entered(s, t) <= Entered(s, u) + 1
  {
    var r := RoundRun(own, all, Initial, 0, run);
    var s := After(Initial, run);
    assert PartyOk(own[t], all, s, r, t) && Met(all, Returned(s, t)) && PartyOk(own[u], all, s, r, u);
  }

  /** When every party has entered equally often, and none is inside a step of the call, the round is complete:
      nobody waits, and the bits are clear. */
  lemma BitsClearWhenComplete(own: map<Task, Bits>, all: Bits, run: seq<Step>, n: nat)
    requires Parties(own, all) && own != map[] && Legal(Initial, run)
    requires forall e :: e in run ==> Permitted(own, all, e)
    requires After(Initial, run).depth == 0 && forall t :: t in own ==> Entered(After(Initial, run), t) == n
    ensures var s := After(Initial, run);
      all * s.group.bits == {} && forall t :: t in own ==> !Waits(s.group, t)
  {
    var s := After(Initial, run);
    var r := RoundRun(own, all, Initial, 0, run);
    forall t | t in own ensures PartyOk(own[t], all, s, r, t) && !PcOf(s, t).Setting? && !PcOf(s, t).Deciding? {
      if t in s.pcs { assert PcOk(s, t, s.pcs[t]); }
    }
    var t :| t in own;
    if n == r + 1 {
      NotAllWait(own, all, s, r, t);
    } else {
      AllClear(own, all, s.group.bits);
    }
  }

  /** Not every party can be waiting: all bits would be set, and the waiters satisfied. */
  lemma NotAllWait(own: map<Task, Bits>, all: Bits, s: State, r: nat, t: Task)
    requires Parties(own, all) && Round(own, all, s, r) && t in own && Waits(s.group, t)
    ensures exists u :: u in own && own[u] * s.group.bits != own[u]
  {
    var w :| w in s.group.waiting && w.task == t;
    assert WaiterOk(s, w);
    WaiterAsks(own, all, s, r, w, s.group.bits);
    var b :| b in all && b !in s.group.bits;
    assert Owned(own, all, b);
    var u :| u in own && b in own[u];
    assert b !in own[u] * s.group.bits;
  }

  lemma AllClear(own: map<Task, Bits>, all: Bits, bits: Bits)
    requires Parties(own, all) && forall u :: u in own ==> Apart(own[u], bits)
    ensures all * bits == {}
  {
    forall b | b in all ensures b !in bits {
      assert Owned(own, all, b);
      var u :| u in own && b in own[u];
      assert b !in own[u] * bits;
    }
  }
}
