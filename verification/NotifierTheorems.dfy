/** The notification manager is a counting semaphore, under every interleaving. */
module NotifierTheorems {
  import opened Wrappers
  import opened Notifier
  import opened NotifierProofs

  function Min(a: nat, b: nat): nat { if a < b then a else b }

  // ------------------------------------------------------ counting registered calls

  function RegisteredCalls(calls: seq<Pc>): set<Id> {
    set w | 0 <= w < |calls| && Registered(calls[w])
  }

  function Members(ids: seq<Id>): set<Id> { set w | w in ids }

  lemma {:induction false} CountRegistered(calls: seq<Pc>)
    ensures |RegisteredCalls(calls)| == Sum(DecidedWaits, calls) - Sum(Released, calls)
    ensures Sum(Notifies, calls) + Sum(Waits, calls) == |calls|
    ensures Sum(DecidedNotifies, calls) <= Sum(Notifies, calls) && Sum(DecidedWaits, calls) <= Sum(Waits, calls)
  {
    if calls != [] {
      var last := |calls| - 1;
      CountRegistered(calls[..last]);
      var before := RegisteredCalls(calls[..last]);
      assert last !in before;
      assert RegisteredCalls(calls) == if Registered(calls[last]) then before + {last} else before;
    }
  }

  lemma {:induction false} CountMembers(ids: seq<Id>)
    requires Distinct(ids)
    ensures |Members(ids)| == |ids|
  {
    if ids != [] {
      var last := |ids| - 1;
      CountMembers(ids[..last]);
      assert Members(ids) == Members(ids[..last]) + {ids[last]};
    }
  }

  lemma SubsetCount(a: set<Id>, b: set<Id>)
    requires a <= b
    ensures |a| <= |b|
  {
    assert b == a + (b - a) && a !! (b - a);
  }

  // ----------------------------------------------------------------- every run

  lemma InitIsGood()
    ensures Inv(Init())
  {
  }

  /** At all times: pending notifications mean nobody is registered, and nobody gets by without a notification. */
  lemma NotificationsAreConserved(run: seq<Action>)
    requires ValidRun(Init(), run)
    ensures var s := Exec(Init(), run);
            && (s.pool.pending > 0 ==> s.pool.notifiers == [])
            && Sum(DecidedNotifies, s.calls) - s.pool.pending == Sum(DecidedWaits, s.calls) - |s.pool.notifiers|
            && Sum(Released, s.calls) <= Sum(DecidedWaits, s.calls) - |s.pool.notifiers|
            && Sum(DecidedWaits, s.calls) - |s.pool.notifiers|
               == Min(Sum(DecidedNotifies, s.calls), Sum(DecidedWaits, s.calls))
  {
    InitIsGood();
    RunsKeepInv(Init(), run);
    var s := Exec(Init(), run);
    CountRegistered(s.calls);
    CountMembers(s.pool.notifiers);
    SubsetCount(Members(s.pool.notifiers), RegisteredCalls(s.calls));
  }

  /** A call that was notified is never left asleep: it is awake, or the call that notified it is about to signal. */
  lemma NoWakeupIsLost(run: seq<Action>, w: Id)
    requires ValidRun(Init(), run)
    requires var s := Exec(Init(), run); w < |s.calls| && s.calls[w] == WBlocked
    ensures var s := Exec(Init(), run); w in s.pool.notifiers || Aim(s) == Some(w) || Signal(s) == Some(w)
  {
    InitIsGood();
    RunsKeepInv(Init(), run);
  }

  // -------------------------------------------------------------------- progress

  predicate Finished(s: State, t: Id)
    requires t < |s.calls|
  {
    s.calls[t] == NDone || s.calls[t] == WDone || (s.calls[t] == WBlocked && t in s.pool.notifiers)
  }

  lemma NoDeadlock(s: State, t: Id)
    requires Inv(s) && t < |s.calls| && !Finished(s, t)
    ensures exists u :: Enabled(s, u)
  {
    if s.poolOwner.Some? {
      var u := s.poolOwner.value;
      assert HoldsPool(s.calls[u]);
      if s.calls[u].NGot? && s.calls[u].target in s.owners {
        var v := s.owners[s.calls[u].target];
        assert Mutex(v, s.calls[v]) == Some(s.calls[u].target);
        assert Enabled(s, v);
      } else {
        assert Enabled(s, u);
      }
    } else {
      assert Aim(s) == None && Signal(s) == None;
      assert !HoldsPool(s.calls[t]);
      assert t in s.owners ==> Mutex(s.owners[t], s.calls[s.owners[t]]) == Some(t);
      assert Enabled(s, t);
    }
  }

  ghost predicate Stuck(s: State) { forall t: Id :: !Enabled(s, t) }

  /** There is no deadlock, and when nothing moves any more exactly min(n, m) waits have returned. */
  lemma ExactlyMinAreReleased(run: seq<Action>)
    requires ValidRun(Init(), run) && Stuck(Exec(Init(), run))
    ensures var s := Exec(Init(), run);
            && (forall t: Id :: t < |s.calls| ==> Finished(s, t))
            && Sum(Released, s.calls) == Min(Sum(Notifies, s.calls), Sum(Waits, s.calls))
  {
    InitIsGood();
    RunsKeepInv(Init(), run);
    var s := Exec(Init(), run);
    forall t: Id | t < |s.calls| ensures Finished(s, t) {
      if !Finished(s, t) {
        NoDeadlock(s, t);
      }
    }
    StuckCounts(s);
  }

  lemma StuckCounts(s: State)
    requires Inv(s) && forall t :: 0 <= t < |s.calls| ==> Finished(s, t)
    ensures Sum(Released, s.calls) == Min(Sum(Notifies, s.calls), Sum(Waits, s.calls))
  {
    CountRegistered(s.calls);
    CountMembers(s.pool.notifiers);
    forall w | w in RegisteredCalls(s.calls) ensures w in s.pool.notifiers {
      assert Finished(s, w);
    }
    assert Members(s.pool.notifiers) == RegisteredCalls(s.calls);
    forall t | 0 <= t < |s.calls| ensures s.calls[t] == NDone || s.calls[t] == WDone || s.calls[t] == WBlocked {
      assert Finished(s, t);
    }
    AllDecided(s.calls);
  }

  lemma {:induction false} AllDecided(calls: seq<Pc>)
    requires forall t :: 0 <= t < |calls| ==> calls[t] == NDone || calls[t] == WDone || calls[t] == WBlocked
    ensures Sum(DecidedNotifies, calls) == Sum(Notifies, calls) && Sum(DecidedWaits, calls) == Sum(Waits, calls)
  {
    if calls != [] {
      AllDecided(calls[..|calls| - 1]);
    }
  }

  // ----------------------------------------------------------------- termination

  /** What a step of `notify` leaves, with the work of a call it wakes. */
  lemma NotifyIsWork(s: State, t: Id)
    requires Enabled(s, t) && IsNotify(s.calls[t])
    ensures |Step(s, t).calls| == |s.calls|
    ensures Left(Step(s, t).calls[t]) + (if Wakes(s, t) then Left(WWoken) - Left(WBlocked) else 0) < Left(s.calls[t])
  {
    match s.calls[t] {
      case NStart => case NHeld => case NGot(_) => case NLocked(_) => case NSet(_) => case NSignalled(_) =>
      case NUnlocked =>
    }
  }

  lemma WaitIsWork(s: State, t: Id)
    requires Enabled(s, t) && !IsNotify(s.calls[t])
    ensures |Step(s, t).calls| == |s.calls| && Left(Step(s, t).calls[t]) < Left(s.calls[t])
  {
    match s.calls[t] {
      case WStart => case WHeld => case WPushed => case WRegistered => case WChecking => case WWoken =>
    }
  }

  /** Every step uses up work. */
  lemma StepIsWork(s: State, t: Id)
    requires Enabled(s, t)
    ensures Sum(Work, Step(s, t).calls) < Sum(Work, s.calls)
  {
    StepSum(Work, s, t);
    if IsNotify(s.calls[t]) {
      NotifyIsWork(s, t);
    } else {
      WaitIsWork(s, t);
    }
  }

  function Moves(run: seq<Action>): nat {
    if run == [] then 0 else Moves(run[1..]) + if run[0].Move? then 1 else 0
  }

  /** What calls and spurious wake-ups add. */
  function Added(run: seq<Action>): nat {
    if run == [] then 0
    else
      Added(run[1..]) +
      (match run[0] case CallNotify => 14 case CallWait => 10 case Spurious(_) => 4 case Move(_) => 0)
  }

  lemma {:induction false} MovesAreBounded(s: State, run: seq<Action>)
    requires ValidRun(s, run)
    ensures Moves(run) + Sum(Work, Exec(s, run).calls) <= Sum(Work, s.calls) + Added(run)
    decreases |run|
  {
    if run != [] {
      var a := run[0];
      MovesAreBounded(Act(s, a), run[1..]);
      match a
      case CallNotify => SumAppend(Work, s.calls, NStart);
      case CallWait => SumAppend(Work, s.calls, WStart);
      case Spurious(t) => MoveSum(s, Work, t, WWoken);
      case Move(t) => StepIsWork(s, t);
    }
  }

  /** So every run gets stuck, with min(n, m) waits released, unless new calls or spurious wake-ups keep it going. */
  lemma EveryRunEnds(run: seq<Action>)
    requires ValidRun(Init(), run)
    ensures Moves(run) <= Added(run)
  {
    MovesAreBounded(Init(), run);
  }

  // ------------------------------------------------------------------ refinement

  /** A counting semaphore: its value, who waits for it, who has been let through. */
  datatype Semaphore = Semaphore(value: nat, waiting: seq<Id>, through: set<Id>)

  function Up(m: Semaphore): Semaphore {
    if m.waiting == [] then m.(value := m.value + 1)
    else
      var last := |m.waiting| - 1;
      m.(waiting := m.waiting[..last], through := m.through + {m.waiting[last]})
  }

  function Down(m: Semaphore, w: Id): Semaphore {
    if m.value > 0 then m.(value := m.value - 1, through := m.through + {w})
    else m.(waiting := m.waiting + [w])
  }

  predicate Decided(pc: Pc) { Registered(pc) || pc.WDone? }

  function Through(calls: seq<Pc>, waiting: seq<Id>): set<Id> {
    set w | 0 <= w < |calls| && Decided(calls[w]) && w !in waiting
  }

  function Abstract(s: State): Semaphore {
    Semaphore(s.pool.pending, s.pool.notifiers, Through(s.calls, s.pool.notifiers))
  }

  /** Apart from the two decisions, no step changes the pool or makes a decided call undecided. */
  lemma QuietStep(s: State, t: Id)
    requires Enabled(s, t) && !s.calls[t].NHeld? && !s.calls[t].WHeld?
    ensures Step(s, t).pool == s.pool && |Step(s, t).calls| == |s.calls|
    ensures forall w :: 0 <= w < |s.calls| ==> Decided(Step(s, t).calls[w]) == Decided(s.calls[w])
  {
    match s.calls[t] {
      case NStart => case NGot(_) => case NLocked(_) => case NSet(_) => case NSignalled(_) =>
      case NUnlocked => case WStart => case WPushed => case WRegistered => case WChecking => case WWoken =>
    }
  }

  lemma PopIsUp(s: State, t: Id)
    requires Registry(s) && Orderly(s.pool) && Enabled(s, t) && s.calls[t].NHeld?
    ensures Abstract(Step(s, t)) == Up(Abstract(s))
  {
    var ids := s.pool.notifiers;
    var after := Step(s, t).calls;
    assert forall w :: 0 <= w < |s.calls| ==> Decided(after[w]) == Decided(s.calls[w]);
    if ids != [] {
      var last := ids[|ids| - 1];
      assert last in ids && last !in ids[..|ids| - 1];
      assert ids == ids[..|ids| - 1] + [last];
      assert Through(after, ids[..|ids| - 1]) == Through(s.calls, ids) + {last};
    } else {
      assert Through(after, ids) == Through(s.calls, ids);
    }
  }

  lemma PushIsDown(s: State, t: Id)
    requires Registry(s) && Enabled(s, t) && s.calls[t].WHeld?
    ensures Abstract(Step(s, t)) == Down(Abstract(s), t)
  {
    var ids := s.pool.notifiers;
    var after := Step(s, t).calls;
    assert t !in ids;
    assert forall w :: 0 <= w < |s.calls| && w != t ==> after[w] == s.calls[w];
    if s.pool.pending > 0 {
      assert Through(after, ids) == Through(s.calls, ids) + {t};
    } else {
      assert Through(after, ids + [t]) == Through(s.calls, ids);
    }
  }

  /** The decision in `notify` is Up, the decision in `wait` is Down, and nothing else is visible. */
  lemma StepRefines(s: State, t: Id)
    requires Inv(s) && Enabled(s, t)
    ensures Abstract(Step(s, t)) ==
            if s.calls[t].NHeld? then Up(Abstract(s))
            else if s.calls[t].WHeld? then Down(Abstract(s), t)
            else Abstract(s)
  {
    if s.calls[t].NHeld? {
      PopIsUp(s, t);
    } else if s.calls[t].WHeld? {
      PushIsDown(s, t);
    } else {
      QuietStep(s, t);
      assert Through(Step(s, t).calls, s.pool.notifiers) == Through(s.calls, s.pool.notifiers);
    }
  }

  /** New calls and spurious wake-ups are invisible too. */
  lemma OthersRefine(s: State, a: Action)
    requires Possible(s, a) && !a.Move?
    ensures Abstract(Act(s, a)) == Abstract(s)
  {
    assert Through(Act(s, a).calls, s.pool.notifiers) == Through(s.calls, s.pool.notifiers);
  }

  /** A wait that has returned was let through. */
  lemma ReturnedWasLetThrough(run: seq<Action>, w: Id)
    requires ValidRun(Init(), run)
    requires var s := Exec(Init(), run); w < |s.calls| && s.calls[w] == WDone
    ensures w in Abstract(Exec(Init(), run)).through
  {
    InitIsGood();
    RunsKeepInv(Init(), run);
  }
}
