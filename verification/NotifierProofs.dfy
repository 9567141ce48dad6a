/** What every step of the notification manager keeps. */
module NotifierProofs {
  import opened Wrappers
  import opened Notifier

  predicate HoldsPool(pc: Pc) {
    pc.NHeld? || pc.NGot? || pc.NLocked? || pc.NSet? || pc.NSignalled? || pc.NUnlocked? || pc.WHeld? || pc.WPushed?
  }

  /** The notifier whose mutex the call holds. */
  function Mutex(t: Id, pc: Pc): Option<Id> {
    if pc.NLocked? || pc.NSet? || pc.NSignalled? then Some(pc.target)
    else if pc.WChecking? then Some(t)
    else None
  }

  predicate Registered(pc: Pc) {
    pc.WPushed? || pc.WRegistered? || pc.WChecking? || pc.WBlocked? || pc.WWoken?
  }

  /** The call popped for a notification that has not set its flag yet. */
  function Aim(s: State): Option<Id> {
    if s.poolOwner.Some? && s.poolOwner.value < |s.calls| then
      var pc := s.calls[s.poolOwner.value];
      if pc.NGot? || pc.NLocked? then Some(pc.target) else None
    else None
  }

  /** The call whose flag is set but which has not been signalled yet. */
  function Signal(s: State): Option<Id> {
    if s.poolOwner.Some? && s.poolOwner.value < |s.calls| then
      var pc := s.calls[s.poolOwner.value];
      if pc.NSet? then Some(pc.target) else None
    else None
  }

  ghost predicate PoolLock(s: State) {
    && (s.poolOwner.Some? ==> s.poolOwner.value < |s.calls| && HoldsPool(s.calls[s.poolOwner.value]))
    && forall t :: 0 <= t < |s.calls| && HoldsPool(s.calls[t]) ==> s.poolOwner == Some(t)
  }

  ghost predicate FlagLocks(s: State) { OwnersHold(s) && HoldersOwn(s) }

  ghost predicate OwnersHold(s: State) {
    forall w :: w in s.owners ==> s.owners[w] < |s.calls| && Mutex(s.owners[w], s.calls[s.owners[w]]) == Some(w)
  }

  ghost predicate HoldersOwn(s: State) {
    forall t :: 0 <= t < |s.calls| ==> Owns(s.owners, t, Mutex(t, s.calls[t]))
  }

  predicate Owns(owners: map<Id, Id>, t: Id, m: Option<Id>) {
    m.Some? ==> m.value in owners && owners[m.value] == t
  }

  /** The pool holds registered calls that nobody has notified. */
  ghost predicate Registry(s: State) {
    forall w :: w in s.pool.notifiers ==>
                  0 <= w < |s.calls| && Registered(s.calls[w]) && w !in s.flags && Aim(s) != Some(w)
  }

  ghost predicate Orderly(p: Pool) { Distinct(p.notifiers) && (p.pending > 0 ==> p.notifiers == []) }

  ghost predicate Distinct(ids: seq<Id>) {
    forall i, j :: 0 <= i < j < |ids| ==> ids[i] != ids[j]
  }

  /** A registered call is in the pool, or being notified, or notified. */
  ghost predicate Accounted(s: State) {
    forall w :: 0 <= w < |s.calls| && Registered(s.calls[w]) ==>
                  w in s.pool.notifiers || Aim(s) == Some(w) || w in s.flags
  }

  /** Only registered calls are being notified, and only such calls have been. */
  ghost predicate Aimed(s: State) {
    && (Aim(s).Some? ==> Aim(s).value < |s.calls| && Registered(s.calls[Aim(s).value]) && Aim(s).value !in s.flags)
    && (forall w :: w in s.flags ==> w < |s.calls| && (Registered(s.calls[w]) || s.calls[w] == WDone))
  }

  /** A call that has been notified is not left blocked, except while its wake-up is on the way. */
  ghost predicate NoLostWakeup(s: State) {
    forall w :: 0 <= w < |s.calls| && s.calls[w] == WBlocked && w in s.flags ==> Signal(s) == Some(w)
  }

  // --------------------------------------------------------------- sums over calls

  datatype Measure = Notifies | Waits | DecidedNotifies | DecidedWaits | Released | Work

  function Weight(m: Measure, pc: Pc): nat {
    var waits := Registered(pc) || pc.WStart? || pc.WHeld? || pc.WDone?;
    match m
    case Notifies => if waits then 0 else 1
    case Waits => if waits then 1 else 0
    case DecidedNotifies => if waits || pc.NStart? || pc.NHeld? then 0 else 1
    case DecidedWaits => if Registered(pc) || pc.WDone? then 1 else 0
    case Released => if pc.WDone? then 1 else 0
    case Work => Left(pc)
  }

  /** More than the steps a call still has to make; a signal pays for the steps of the call it wakes. */
  function Left(pc: Pc): nat {
    match pc
    case NStart => 14 case NHeld => 13 case NGot(_) => 12 case NLocked(_) => 11 case NSet(_) => 10
    case NSignalled(_) => 4 case NUnlocked => 3 case NDone => 0
    case WStart => 10 case WHeld => 9 case WPushed => 8 case WRegistered => 7
    case WChecking => 4 case WBlocked => 1 case WWoken => 5 case WDone => 0
  }

  function Sum(m: Measure, calls: seq<Pc>): nat {
    if calls == [] then 0 else Sum(m, calls[..|calls| - 1]) + Weight(m, calls[|calls| - 1])
  }

  lemma {:induction false} SumUpdate(m: Measure, calls: seq<Pc>, t: nat, pc: Pc)
    requires t < |calls|
    ensures Sum(m, calls[t := pc]) == Sum(m, calls) - Weight(m, calls[t]) + Weight(m, pc)
    decreases |calls|
  {
    var last := |calls| - 1;
    var changed := calls[t := pc];
    if t == last {
      assert changed[..last] == calls[..last];
    } else {
      assert changed[..last] == calls[..last][t := pc];
      SumUpdate(m, calls[..last], t, pc);
    }
  }

  lemma SumAppend(m: Measure, calls: seq<Pc>, pc: Pc)
    ensures Sum(m, calls + [pc]) == Sum(m, calls) + Weight(m, pc)
  {
    assert (calls + [pc])[..|calls|] == calls;
  }

  /** Notifications are conserved: every one is still pending or has been given to exactly one wait. */
  ghost predicate Balanced(s: State) {
    Sum(DecidedNotifies, s.calls) - s.pool.pending == Sum(DecidedWaits, s.calls) - |s.pool.notifiers|
  }

  ghost predicate Inv(s: State) {
    && PoolLock(s) && FlagLocks(s) && Registry(s) && Orderly(s.pool)
    && Accounted(s) && Aimed(s) && NoLostWakeup(s) && Balanced(s)
  }

  // ---------------------------------------------------------------- preservation

  lemma StepKeepsPoolLock(s: State, t: Id)
    requires Enabled(s, t) && PoolLock(s)
    ensures PoolLock(Step(s, t))
  {
    match s.calls[t] {
      case NStart => case NHeld => case NGot(_) => case NLocked(_) => case NSet(_) => case NSignalled(_) =>
      case NUnlocked =>
      case WStart => case WHeld => case WPushed => case WRegistered => case WChecking => case WWoken =>
    }
  }

  lemma StepKeepsOwners(s: State, t: Id)
    requires Enabled(s, t) && OwnersHold(s) && HoldersOwn(s)
    ensures OwnersHold(Step(s, t))
  {
    match s.calls[t] {
      case NStart => case NHeld => case NGot(_) => case NLocked(_) => case NSet(_) => case NSignalled(_) =>
      case NUnlocked =>
      case WStart => case WHeld => case WPushed => case WRegistered => case WChecking => case WWoken =>
    }
  }

  lemma StepKeepsHolders(s: State, t: Id)
    requires Enabled(s, t) && OwnersHold(s) && HoldersOwn(s)
    ensures HoldersOwn(Step(s, t))
  {
    match s.calls[t] {
      case NStart => case NHeld => case NGot(_) => case NLocked(_) => case NSet(_) => case NSignalled(_) =>
      case NUnlocked =>
      case WStart => case WHeld => case WPushed => case WRegistered => case WChecking => case WWoken =>
    }
  }

  lemma StepKeepsOrder(s: State, t: Id)
    requires Enabled(s, t) && PoolLock(s) && Registry(s) && Orderly(s.pool)
    ensures Orderly(Step(s, t).pool)
  {
    match s.calls[t] {
      case NStart => case NHeld => case NGot(_) => case NLocked(_) => case NSet(_) => case NSignalled(_) =>
      case NUnlocked =>
      case WStart => case WHeld => case WPushed => case WRegistered => case WChecking => case WWoken =>
    }
  }

  lemma PopKeepsRegistry(s: State, t: Id)
    requires Enabled(s, t) && s.calls[t].NHeld? && PoolLock(s) && Registry(s) && Orderly(s.pool)
    ensures Registry(Step(s, t))
  {
    if s.pool.notifiers != [] {
      assert Aim(Step(s, t)) == Some(s.pool.notifiers[|s.pool.notifiers| - 1]);
    }
  }

  lemma PushKeepsRegistry(s: State, t: Id)
    requires Enabled(s, t) && s.calls[t].WHeld? && PoolLock(s) && Registry(s) && Aimed(s)
    ensures Registry(Step(s, t))
  {
    assert Aim(s) == Aim(Step(s, t)) == None;
  }

  lemma StepKeepsRegistry(s: State, t: Id)
    requires Enabled(s, t) && PoolLock(s) && Registry(s) && Orderly(s.pool) && Aimed(s)
    ensures Registry(Step(s, t))
  {
    match s.calls[t] {
      case NHeld => PopKeepsRegistry(s, t);
      case WHeld => PushKeepsRegistry(s, t);
      case NStart => case NGot(_) => case NLocked(_) => case NSet(_) => case NSignalled(_) =>
      case NUnlocked => case WStart => case WPushed => case WRegistered => case WChecking => case WWoken =>
    }
  }

  lemma StepKeepsAccounted(s: State, t: Id)
    requires Enabled(s, t) && PoolLock(s) && Registry(s) && Accounted(s)
    ensures Accounted(Step(s, t))
  {
    match s.calls[t] {
      case NStart => case NHeld => case NGot(_) => case NLocked(_) => case NSet(_) => case NSignalled(_) =>
      case NUnlocked =>
      case WStart => case WHeld => case WPushed => case WRegistered => case WChecking => case WWoken =>
    }
  }

  lemma StepKeepsAimed(s: State, t: Id)
    requires Enabled(s, t) && PoolLock(s) && Registry(s) && Aimed(s)
    ensures Aimed(Step(s, t))
  {
    match s.calls[t] {
      case NStart => case NHeld => case NGot(_) => case NLocked(_) => case NSet(_) => case NSignalled(_) =>
      case NUnlocked =>
      case WStart => case WHeld => case WPushed => case WRegistered => case WChecking => case WWoken =>
    }
  }

  lemma StepKeepsWakeups(s: State, t: Id)
    requires Enabled(s, t) && PoolLock(s) && FlagLocks(s) && NoLostWakeup(s)
    ensures NoLostWakeup(Step(s, t))
  {
    match s.calls[t] {
      case NStart => case NHeld => case NGot(_) => case NLocked(_) => case NSet(_) => case NSignalled(_) =>
      case NUnlocked =>
      case WStart => case WHeld => case WPushed => case WRegistered => case WChecking => case WWoken =>
    }
  }

  lemma MoveSum(s: State, m: Measure, t: Id, pc: Pc)
    requires t < |s.calls|
    ensures Sum(m, At(s, t, pc)) == Sum(m, s.calls) - Weight(m, s.calls[t]) + Weight(m, pc)
  {
    SumUpdate(m, s.calls, t, pc);
  }

  /** Whether the step wakes another call. */
  predicate Wakes(s: State, t: Id)
    requires t < |s.calls|
  {
    s.calls[t].NSet? && s.calls[t].target < |s.calls| && s.calls[s.calls[t].target] == WBlocked
  }

  /** A step moves its own call, and a blocked one if it wakes one. */
  lemma StepSum(m: Measure, s: State, t: Id)
    requires Enabled(s, t)
    ensures |Step(s, t).calls| == |s.calls|
    ensures Sum(m, Step(s, t).calls) ==
            Sum(m, s.calls) - Weight(m, s.calls[t]) + Weight(m, Step(s, t).calls[t])
            + if Wakes(s, t) then Weight(m, WWoken) - Weight(m, WBlocked) else 0
  {
    var after := Step(s, t).calls;
    if Wakes(s, t) {
      var w := s.calls[t].target;
      MoveSum(s, m, t, NSignalled(w));
      SumUpdate(m, At(s, t, NSignalled(w)), w, WWoken);
    } else {
      assert after == s.calls[t := after[t]];
      SumUpdate(m, s.calls, t, after[t]);
    }
  }

  predicate IsNotify(pc: Pc) { Weight(Notifies, pc) == 1 }

  lemma NotifyKeepsBalance(s: State, t: Id)
    requires Enabled(s, t) && IsNotify(s.calls[t]) && Balanced(s)
    ensures Balanced(Step(s, t))
  {
    StepSum(DecidedNotifies, s, t);
    StepSum(DecidedWaits, s, t);
    match s.calls[t] {
      case NStart => case NHeld => case NGot(_) => case NLocked(_) => case NSet(_) => case NSignalled(_) =>
      case NUnlocked =>
    }
  }

  lemma WaitKeepsBalance(s: State, t: Id)
    requires Enabled(s, t) && !IsNotify(s.calls[t]) && Balanced(s)
    ensures Balanced(Step(s, t))
  {
    StepSum(DecidedNotifies, s, t);
    StepSum(DecidedWaits, s, t);
    match s.calls[t] {
      case WStart => case WHeld => case WPushed => case WRegistered => case WChecking => case WWoken =>
    }
  }

  lemma StepKeepsBalance(s: State, t: Id)
    requires Enabled(s, t) && Balanced(s)
    ensures Balanced(Step(s, t))
  {
    if IsNotify(s.calls[t]) {
      NotifyKeepsBalance(s, t);
    } else {
      WaitKeepsBalance(s, t);
    }
  }

  lemma StepKeepsInv(s: State, t: Id)
    requires Enabled(s, t) && Inv(s)
    ensures Inv(Step(s, t))
  {
    StepKeepsPoolLock(s, t);
    StepKeepsOwners(s, t);
    StepKeepsHolders(s, t);
    StepKeepsRegistry(s, t);
    StepKeepsOrder(s, t);
    StepKeepsAccounted(s, t);
    StepKeepsAimed(s, t);
    StepKeepsWakeups(s, t);
    StepKeepsBalance(s, t);
  }

  function Called(s: State, pc: Pc): State { s.(calls := s.calls + [pc]) }

  lemma CallAims(s: State, pc: Pc)
    requires PoolLock(s) && (pc == NStart || pc == WStart)
    ensures Aim(Called(s, pc)) == Aim(s) && Signal(Called(s, pc)) == Signal(s)
    ensures forall t :: 0 <= t < |s.calls| ==> Called(s, pc).calls[t] == s.calls[t]
    ensures Called(s, pc).calls[|s.calls|] == pc
  {
  }

  lemma CallKeepsLocks(s: State, pc: Pc)
    requires PoolLock(s) && FlagLocks(s) && (pc == NStart || pc == WStart)
    ensures PoolLock(Called(s, pc)) && FlagLocks(Called(s, pc))
  {
    CallAims(s, pc);
  }

  lemma CallKeepsPool(s: State, pc: Pc)
    requires PoolLock(s) && Registry(s) && Accounted(s) && (pc == NStart || pc == WStart)
    ensures Registry(Called(s, pc)) && Accounted(Called(s, pc))
  {
    CallAims(s, pc);
  }

  lemma CallKeepsWakeups(s: State, pc: Pc)
    requires PoolLock(s) && Aimed(s) && NoLostWakeup(s) && (pc == NStart || pc == WStart)
    ensures Aimed(Called(s, pc)) && NoLostWakeup(Called(s, pc))
  {
    CallAims(s, pc);
  }

  lemma CallKeepsInv(s: State, pc: Pc)
    requires Inv(s) && (pc == NStart || pc == WStart)
    ensures Inv(Called(s, pc))
  {
    CallKeepsLocks(s, pc);
    CallKeepsPool(s, pc);
    CallKeepsWakeups(s, pc);
    SumAppend(DecidedNotifies, s.calls, pc);
    SumAppend(DecidedWaits, s.calls, pc);
  }

  function Woken(s: State, t: Id): State
    requires t < |s.calls|
  {
    s.(calls := At(s, t, WWoken))
  }

  lemma WakeAims(s: State, t: Id)
    requires PoolLock(s) && t < |s.calls| && s.calls[t] == WBlocked
    ensures Aim(Woken(s, t)) == Aim(s) && Signal(Woken(s, t)) == Signal(s)
  {
  }

  lemma WakeKeepsLocks(s: State, t: Id)
    requires PoolLock(s) && FlagLocks(s) && t < |s.calls| && s.calls[t] == WBlocked
    ensures PoolLock(Woken(s, t)) && FlagLocks(Woken(s, t))
  {
  }

  lemma WakeKeepsPool(s: State, t: Id)
    requires PoolLock(s) && Registry(s) && Accounted(s) && Aimed(s) && NoLostWakeup(s)
    requires t < |s.calls| && s.calls[t] == WBlocked
    ensures Registry(Woken(s, t)) && Accounted(Woken(s, t)) && Aimed(Woken(s, t)) && NoLostWakeup(Woken(s, t))
  {
    WakeAims(s, t);
  }

  lemma SpuriousKeepsInv(s: State, t: Id)
    requires Inv(s) && t < |s.calls| && s.calls[t] == WBlocked
    ensures Inv(Woken(s, t))
  {
    WakeKeepsLocks(s, t);
    WakeKeepsPool(s, t);
    MoveSum(s, DecidedNotifies, t, WWoken);
    MoveSum(s, DecidedWaits, t, WWoken);
  }

  lemma ActKeepsInv(s: State, a: Action)
    requires Possible(s, a) && Inv(s)
    ensures Inv(Act(s, a))
  {
    match a
    case CallNotify => CallKeepsInv(s, NStart);
    case CallWait => CallKeepsInv(s, WStart);
    case Move(t) => StepKeepsInv(s, t);
    case Spurious(t) => SpuriousKeepsInv(s, t);
  }

  lemma {:induction false} RunsKeepInv(s: State, run: seq<Action>)
    requires ValidRun(s, run) && Inv(s)
    ensures Inv(Exec(s, run))
    decreases |run|
  {
    if run != [] {
      ActKeepsInv(s, run[0]);
      RunsKeepInv(Act(s, run[0]), run[1..]);
    }
  }
}
