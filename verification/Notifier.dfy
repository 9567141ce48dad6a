/**
 * The notification manager as threads see it: every lock acquisition, flag access,
 * wait and wake-up is a step of its own, and steps interleave freely.
 */
module Notifier {
  import opened Wrappers

  /** A call of `notify` or `wait`; a waiting call's number also names the notifier it creates. */
  type Id = nat

  datatype Pool = Pool(notifiers: seq<Id>, pending: nat)

  datatype Pc =
    // notify: pool lock, decision, flag lock, flag, signal, the two unlocks
    | NStart | NHeld | NGot(target: Id) | NLocked(target: Id) | NSet(target: Id) | NSignalled(target: Id)
    | NUnlocked | NDone
    // wait: pool lock, decision, unlock, flag lock, check; blocked and woken belong to the condition variable
    | WStart | WHeld | WPushed | WRegistered | WChecking | WBlocked | WWoken | WDone

  datatype State = State(
    calls: seq<Pc>,
    pool: Pool,
    poolOwner: Option<Id>,
    flags: set<Id>,         // the notifiers whose `notified` is true
    owners: map<Id, Id>)    // who holds which notifier's mutex

  // -------------------------------------------------- under the pool lock

  /** The newest registered notifier is taken; without one the notification is kept. */
  function Notified(p: Pool): (Pool, Option<Id>) {
    if p.notifiers != [] then
      var last := |p.notifiers| - 1;
      (p.(notifiers := p.notifiers[..last]), Some(p.notifiers[last]))
    else (p.(pending := p.pending + 1), None)
  }

  /** A kept notification is used up; without one the caller registers and has to wait. */
  function Waited(p: Pool, w: Id): (Pool, bool) {
    if p.pending > 0 then (p.(pending := p.pending - 1), true)
    else (p.(notifiers := p.notifiers + [w]), false)
  }

  /** The pool itself; both methods run with its mutex held. */
  class PoolCell {
    var notifiers: seq<Id>
    var pending: nat

    function Value(): Pool
      reads this
    {
      Pool(notifiers, pending)
    }

    constructor ()
      ensures Value() == Pool([], 0)
    {
      notifiers, pending := [], 0;
    }

    method Notify() returns (taken: Option<Id>)
      modifies this
      ensures (Value(), taken) == Notified(old(Value()))
      ensures old(notifiers) == [] ==> taken == None && notifiers == [] && pending == old(pending) + 1
      ensures old(notifiers) != [] ==>
                taken.Some? && notifiers + [taken.value] == old(notifiers) && pending == old(pending)
    {
      if |notifiers| > 0 {
        taken := Some(notifiers[|notifiers| - 1]);
        notifiers := notifiers[..|notifiers| - 1];
      } else {
        taken := None;
        pending := pending + 1;
      }
    }

    method Wait(w: Id) returns (passed: bool)
      modifies this
      ensures (Value(), passed) == Waited(old(Value()), w)
      ensures passed <==> old(pending) > 0
      ensures passed ==> pending == old(pending) - 1 && notifiers == old(notifiers)
      ensures !passed ==> pending == 0 && notifiers == old(notifiers) + [w]
    {
      passed := pending > 0;
      if passed {
        pending := pending - 1;
      } else {
        notifiers := notifiers + [w];
      }
    }
  }

  // ---------------------------------------------------------------- steps

  function Init(): State { State([], Pool([], 0), None, {}, map[]) }

  /** Whether call `t` can move on its own; only lock acquisitions and the condition variable can hold it up. */
  predicate Enabled(s: State, t: Id) {
    && t < |s.calls|
    && match s.calls[t]
       case NStart => s.poolOwner.None?
       case WStart => s.poolOwner.None?
       case NGot(w) => w !in s.owners
       case WRegistered => t !in s.owners
       case WWoken => t !in s.owners
       case WBlocked => false
       case NDone => false
       case WDone => false
       case NHeld => true
       case NLocked(_) => true
       case NSet(_) => true
       case NSignalled(_) => true
       case NUnlocked => true
       case WHeld => true
       case WPushed => true
       case WChecking => true
  }

  function At(s: State, t: Id, pc: Pc): seq<Pc>
    requires t < |s.calls|
  {
    s.calls[t := pc]
  }

  function Step(s: State, t: Id): State
    requires Enabled(s, t)
  {
    match s.calls[t]
    case NStart => s.(calls := At(s, t, NHeld), poolOwner := Some(t))
    case NHeld =>
      var (p, taken) := Notified(s.pool);
      if taken.Some? then s.(calls := At(s, t, NGot(taken.value)), pool := p)
      else s.(calls := At(s, t, NDone), pool := p, poolOwner := None)
    case NGot(w) => s.(calls := At(s, t, NLocked(w)), owners := s.owners[w := t])
    case NLocked(w) => s.(calls := At(s, t, NSet(w)), flags := s.flags + {w})
    case NSet(w) =>
      var signalled := At(s, t, NSignalled(w));
      s.(calls := if w < |signalled| && signalled[w] == WBlocked then signalled[w := WWoken] else signalled)
    case NSignalled(w) => s.(calls := At(s, t, NUnlocked), owners := s.owners - {w})
    case NUnlocked => s.(calls := At(s, t, NDone), poolOwner := None)
    case WStart => s.(calls := At(s, t, WHeld), poolOwner := Some(t))
    case WHeld =>
      var (p, passed) := Waited(s.pool, t);
      if passed then s.(calls := At(s, t, WDone), pool := p, poolOwner := None)
      else s.(calls := At(s, t, WPushed), pool := p)
    case WPushed => s.(calls := At(s, t, WRegistered), poolOwner := None)
    case WRegistered => s.(calls := At(s, t, WChecking), owners := s.owners[t := t])
    case WWoken => s.(calls := At(s, t, WChecking), owners := s.owners[t := t])
    case WChecking =>
      if t in s.flags then s.(calls := At(s, t, WDone), owners := s.owners - {t})
      else s.(calls := At(s, t, WBlocked), owners := s.owners - {t})
    case WBlocked => s
    case NDone => s
    case WDone => s
  }

  datatype Action =
    | CallNotify
    | CallWait
    | Move(t: Id)
    | Spurious(t: Id)   // a condition variable may wake a thread for no reason

  predicate Possible(s: State, a: Action) {
    match a
    case CallNotify => true
    case CallWait => true
    case Move(t) => Enabled(s, t)
    case Spurious(t) => t < |s.calls| && s.calls[t] == WBlocked
  }

  function Act(s: State, a: Action): State
    requires Possible(s, a)
  {
    match a
    case CallNotify => s.(calls := s.calls + [NStart])
    case CallWait => s.(calls := s.calls + [WStart])
    case Move(t) => Step(s, t)
    case Spurious(t) => s.(calls := At(s, t, WWoken))
  }

  predicate ValidRun(s: State, run: seq<Action>)
    decreases |run|
  {
    run == [] || (Possible(s, run[0]) && ValidRun(Act(s, run[0]), run[1..]))
  }

  function Exec(s: State, run: seq<Action>): State
    requires ValidRun(s, run)
    decreases |run|
  {
    if run == [] then s else Exec(Act(s, run[0]), run[1..])
  }
}
