/** What every step of the blob sender keeps. */
module BlobSenderProofs {
  import opened Wrappers
  import opened BlobTask
  import opened BlobSenderSystem

  // ------------------------------------------------ one step of one task

  predicate HookSeen(log: seq<Event>, id: BlobId, r: Receipt) { OnPublished(id, r) in log }

  /** A status that may sit in the database or in a request made from it. */
  predicate StorableStatus(log: seq<Event>, id: BlobId, st: ExecutionStatus) {
    !st.submission.Finalized? &&
    (st.submission.Processed? ==> st.selector.Some? && HookSeen(log, id, st.submission.receipt))
  }

  predicate TaskOk(log: seq<Event>, t: Task) {
    t.pc != Panicked &&
    match t.status.submission
    case MustSubmit => t.pc in {Enter, Send, Exiting, Done}
    case Published(r) =>
      t.pc in {Enter, Hook, Poll, Exiting, Done} && (t.pc == Poll ==> HookSeen(log, t.id, r))
    case Processed(r) =>
      t.pc in {Enter, Poll, Exiting, Done} && t.status.selector.Some? && HookSeen(log, t.id, r)
    case Finalized(r) =>
      t.pc in {Enter, Remove, Exiting, Done} && t.status.selector.Some? && HookSeen(log, t.id, r) &&
      (t.pc == Remove ==> OnFinalized(t.id, r, t.status.selector.value) in log)
  }

  /** The call of on_finalized_blob at index `i` is justified by what precedes it. */
  predicate Justified(log: seq<Event>, i: int)
    requires 0 <= i < |log|
  {
    log[i].OnFinalized? ==>
      Settles(log[i].verdict) && HookSeen(log[..i], log[i].id, log[i].receipt)
  }

  ghost predicate LogOk(log: seq<Event>) {
    forall i :: 0 <= i < |log| ==> Justified(log, i)
  }

  lemma LogGrows(log: seq<Event>, e: Event)
    requires LogOk(log)
    requires e.OnFinalized? ==> Settles(e.verdict) && HookSeen(log, e.id, e.receipt)
    ensures LogOk(log + [e])
  {
    var l := log + [e];
    forall i | 0 <= i < |l| ensures Justified(l, i) {
      if i < |log| {
        assert Justified(log, i);
        assert l[..i] == log[..i];
      } else {
        assert l[..i] == log;
      }
    }
  }

  lemma StepKeepsTaskOk(log: seq<Event>, t: Task, a: Answer)
    requires Accepts(t, a) && TaskOk(log, t) && LogOk(log)
    ensures var (t', e) := Step(t, a);
            && t'.id == t.id && TaskOk(log + Noted(t.id, e), t') && LogOk(log + Noted(t.id, e))
            && (e.SaveState? ==> StorableStatus(log, t.id, e.status))
  {
    var (t', e) := Step(t, a);
    if e.CallPublished? {
      LogGrows(log, OnPublished(t.id, e.receipt));
    } else if e.CallFinalized? {
      LogGrows(log, OnFinalized(t.id, e.receipt, e.verdict));
    } else {
      assert log + [] == log;
    }
  }

  /** The facts about a task's step that the rest of the system depends on. */
  predicate Moved(t: Task, t': Task, e: Effect) {
    && t'.id == t.id && t.Unfinished()
    && (t'.Unfinished() <==> !e.DecrementCounter?)
    && (t'.Active() ==> t.Active())
    && (e.SaveState? || e.RemoveBlob? ==> t.Active())
    && (e.RemoveBlob? ==> t.pc == Remove && !t'.Active())
    && (t'.pc == Remove ==> e.CallFinalized?)
  }

  lemma StepMoves(log: seq<Event>, t: Task, a: Answer)
    requires Accepts(t, a) && TaskOk(log, t)
    ensures Moved(t, Step(t, a).0, Step(t, a).1)
    ensures t.Active() && !Step(t, a).0.Active() ==>
              var e := Step(t, a).1; a == Cancel || e.SignalShutdown? || e.RemoveBlob? || e.RemoveRefused?
  {
  }

  /** `s'` is `s` after task `tid` became `t'` and its effect `e` was performed. */
  ghost predicate Stepped(s: Sys, s': Sys, tid: TaskId, t': Task, e: Effect) {
    && s.up && tid in s.proc.tasks && Moved(s.proc.tasks[tid], t', e)
    && s'.up
    && s'.log == s.log + Noted(t'.id, e)
    && s'.disk.blobs == (if e.RemoveBlob? then s.disk.blobs - {t'.id} else s.disk.blobs)
    && s'.disk.infos == (if e.RemoveBlob? then s.disk.infos - {t'.id}
                         else if e.SaveState? then s.disk.infos[t'.id := e.status] else s.disk.infos)
    && s'.proc == s.proc.(
         tasks := s.proc.tasks[tid := t'],
         counter := if e.DecrementCounter? then s.proc.counter - 1 else s.proc.counter,
         shutdown := s.proc.shutdown || e.SignalShutdown?,
         dbError := s.proc.dbError || e.RemoveRefused?)
  }

  lemma Performed(s: Sys, tid: TaskId, t': Task, e: Effect)
    requires s.up && tid in s.proc.tasks && Moved(s.proc.tasks[tid], t', e)
    ensures Stepped(s, Perform(s.(proc := s.proc.(tasks := s.proc.tasks[tid := t'])), t'.id, e), tid, t', e)
  {
    assert s.log + [] == s.log;
    match e
    case Quiet =>
    case SaveState(_) =>
    case CallPublished(_) =>
    case CallFinalized(_, _) =>
    case RemoveBlob =>
    case RemoveRefused =>
    case SignalShutdown =>
    case DecrementCounter =>
  }

  lemma RunSteps(s: Sys, tid: TaskId, a: Answer)
    requires Enabled(s, Run(tid, a)) && TaskOk(s.log, s.proc.tasks[tid])
    ensures Stepped(s, Apply(s, Run(tid, a)), tid, Step(s.proc.tasks[tid], a).0, Step(s.proc.tasks[tid], a).1)
  {
    var (t', e) := Step(s.proc.tasks[tid], a);
    StepMoves(s.log, s.proc.tasks[tid], a);
    Performed(s, tid, t', e);
  }

  // -------------------------------------------------- statuses and hooks

  predicate Requested(p: Proc, r: Request) {
    r in p.queue || (p.afterRestart.Some? && r in p.afterRestart.value)
  }

  ghost predicate InfosOk(log: seq<Event>, d: Disk) {
    forall id :: id in d.infos ==> StorableStatus(log, id, d.infos[id])
  }

  ghost predicate RequestsOk(log: seq<Event>, p: Proc) {
    forall r :: Requested(p, r) ==> StorableStatus(log, r.id, r.status)
  }

  ghost predicate AllTasksOk(log: seq<Event>, p: Proc) {
    forall tid :: tid in p.tasks ==> TaskOk(log, p.tasks[tid])
  }

  ghost predicate StatusesOk(s: Sys) {
    && LogOk(s.log) && InfosOk(s.log, s.disk)
    && (s.up ==> RequestsOk(s.log, s.proc) && AllTasksOk(s.log, s.proc))
  }

  lemma LongerLog(log: seq<Event>, more: seq<Event>)
    ensures forall id, st :: StorableStatus(log, id, st) ==> StorableStatus(log + more, id, st)
    ensures forall t :: TaskOk(log, t) ==> TaskOk(log + more, t)
  {
  }

  lemma StartKeepsStatuses(s: Sys, completed: seq<(BlobToSend, BlobId)>, counter: nat)
    requires !s.up && StatusesOk(s)
    ensures StatusesOk(Apply(s, Start(completed, counter)))
  {
    var ids := Ascending(s.disk.blobs.Keys);
    var p := Boot(GetAll(s.disk) + FreshRequests(completed), counter);
    forall r | Requested(p, r) ensures StorableStatus(s.log, r.id, r.status) {
      if r in GetAll(s.disk) {
        var i :| 0 <= i < |ids| && r == GetAll(s.disk)[i];
        assert ids[i] in s.disk.blobs;
      } else {
        assert r in FreshRequests(completed);
      }
    }
  }

  lemma SteppedKeepsStatuses(s: Sys, s': Sys, tid: TaskId, t': Task, e: Effect)
    requires Stepped(s, s', tid, t', e) && StatusesOk(s)
    requires TaskOk(s'.log, t') && LogOk(s'.log)
    requires e.SaveState? ==> StorableStatus(s.log, t'.id, e.status)
    ensures StatusesOk(s')
  {
    LongerLog(s.log, Noted(t'.id, e));
    forall r | Requested(s'.proc, r) ensures Requested(s.proc, r) {}
  }

  lemma SubmitKeepsStatuses(s: Sys)
    requires s.up && s.proc.queue != [] && StatusesOk(s)
    ensures StatusesOk(Submit(s))
  {
    var r := s.proc.queue[0];
    var s' := Submit(s);
    LogGrows(s.log, Pushed(r.id, r.blob));
    LongerLog(s.log, [Pushed(r.id, r.blob)]);
    assert Requested(s.proc, r);
    forall q | Requested(s'.proc, q) ensures Requested(s.proc, q) {}
  }

  lemma ControlKeepsStatuses(s: Sys, a: Action)
    requires a.Publish? || a.CheckShutdown? || a.Tick? || a.Signal? || a.TakeMap? || a.JoinAll?
    requires Enabled(s, a) && StatusesOk(s)
    ensures StatusesOk(s.(proc := Control(s.proc, a)))
  {
    forall r | Requested(Control(s.proc, a), r) ensures StorableStatus(s.log, r.id, r.status) {
      assert Requested(s.proc, r) || r.status == FRESH;
    }
  }

  lemma StepKeepsStatuses(s: Sys, a: Action)
    requires Enabled(s, a) && StatusesOk(s)
    ensures StatusesOk(Apply(s, a))
  {
    match a
    case Start(completed, counter) => StartKeepsStatuses(s, completed, counter);
    case Crash =>
    case Run(tid, answer) =>
      StepKeepsTaskOk(s.log, s.proc.tasks[tid], answer);
      RunSteps(s, tid, answer);
      var (t', e) := Step(s.proc.tasks[tid], answer);
      SteppedKeepsStatuses(s, Apply(s, a), tid, t', e);
    case Lock(pushOk) =>
      if s.proc.queue[0].id !in s.proc.inFlight && pushOk {
        SubmitKeepsStatuses(s);
      } else {
        forall r | Requested(TurnAway(s.proc), r) ensures Requested(s.proc, r) {}
      }
    case _ => ControlKeepsStatuses(s, a);
  }

  // ------------------------------------------------- tasks and the counter

  function UnfinishedTasks(tasks: map<TaskId, Task>): set<TaskId> {
    set tid | tid in tasks && tasks[tid].Unfinished()
  }

  /** Two tasks that are not finished never work on the same blob. */
  ghost predicate OneTaskPerBlob(tasks: map<TaskId, Task>) {
    forall t, u | t in tasks && u in tasks && tasks[t].Unfinished() && tasks[u].Unfinished()
      :: tasks[t].id == tasks[u].id ==> t == u
  }

  /** Where the handle of the unfinished task `tid` is. */
  predicate Handled(p: Proc, tid: TaskId)
    requires tid in p.tasks
  {
    if p.main.Joining? then tid in p.main.taken
    else p.tasks[tid].id in p.inFlight && p.inFlight[p.tasks[tid].id] == tid
  }

  ghost predicate ProcOk(p: Proc) {
    && (forall tid :: tid in p.tasks ==> tid < p.nextTask)
    && (forall id :: id in p.inFlight ==> p.inFlight[id] in p.tasks && p.tasks[p.inFlight[id]].id == id)
    && (forall tid :: tid in p.tasks && p.tasks[tid].Unfinished() ==> Handled(p, tid))
    && (!p.main.Ticking? ==> p.shutdown)
    && p.counter == p.counterAtStart + |UnfinishedTasks(p.tasks)|
  }

  ghost predicate TasksOk(s: Sys) {
    s.up ==> ProcOk(s.proc) && OneTaskPerBlob(s.proc.tasks)
  }

  lemma SteppedKeepsTasks(s: Sys, s': Sys, tid: TaskId, t': Task, e: Effect)
    requires Stepped(s, s', tid, t', e) && TasksOk(s)
    ensures TasksOk(s')
  {
    UnfinishedAfter(s.proc.tasks, tid, t');
  }

  lemma UnfinishedAfter(tasks: map<TaskId, Task>, tid: TaskId, t': Task)
    requires tid in tasks && tasks[tid].Unfinished()
    ensures |UnfinishedTasks(tasks[tid := t'])| == |UnfinishedTasks(tasks)| - if t'.Unfinished() then 0 else 1
  {
    var before, after := UnfinishedTasks(tasks), UnfinishedTasks(tasks[tid := t']);
    if t'.Unfinished() {
      assert after == before;
    } else {
      assert after == before - {tid};
    }
  }

  lemma OneMoreTask(tasks: map<TaskId, Task>, tid: TaskId, t: Task)
    requires tid !in tasks && t.Unfinished()
    ensures |UnfinishedTasks(tasks[tid := t])| == |UnfinishedTasks(tasks)| + 1
  {
    assert UnfinishedTasks(tasks[tid := t]) == UnfinishedTasks(tasks) + {tid};
  }

  lemma AdmitKeepsProc(p: Proc)
    requires p.queue != [] && p.queue[0].id !in p.inFlight && !p.main.Joining? && ProcOk(p)
    ensures ProcOk(Admit(p))
  {
    var r := p.queue[0];
    OneMoreTask(p.tasks, p.nextTask, Spawn(r.id, r.blob, r.status));
  }

  lemma SubmitKeepsTasks(s: Sys)
    requires s.up && s.proc.queue != [] && s.proc.queue[0].id !in s.proc.inFlight && !s.proc.main.Joining?
    requires TasksOk(s)
    ensures TasksOk(Submit(s))
  {
    AdmitKeepsProc(s.proc);
  }

  lemma ControlKeepsProc(p: Proc, a: Action)
    requires a.Publish? || a.CheckShutdown? || a.Tick? || a.Signal?
    requires (a.CheckShutdown? ==> p.queue != []) && (a.Tick? ==> p.main.Ticking?) && ProcOk(p)
    ensures ProcOk(Control(p, a))
  {
    var p' := Control(p, a);
    forall tid | tid in p'.tasks && p'.tasks[tid].Unfinished() ensures Handled(p', tid) {
      assert Handled(p, tid);
    }
  }

  lemma TakeKeepsProc(p: Proc)
    requires p.shutdown && p.main.Ticking? && ProcOk(p)
    ensures ProcOk(Control(p, TakeMap))
  {
    var p' := Control(p, TakeMap);
    forall tid | tid in p'.tasks && p'.tasks[tid].Unfinished() ensures Handled(p', tid) {
      assert Handled(p, tid);
      assert p.tasks[tid].id in p.inFlight.Keys;
    }
  }

  lemma JoinKeepsProc(p: Proc)
    requires p.main.Joining? && ProcOk(p)
    requires forall tid :: tid in p.main.taken && tid in p.tasks ==> !p.tasks[tid].Unfinished()
    ensures ProcOk(Control(p, JoinAll))
  {
  }

  lemma RunKeepsTasks(s: Sys, tid: TaskId, answer: Answer)
    requires Enabled(s, Run(tid, answer)) && StatusesOk(s) && TasksOk(s)
    ensures TasksOk(Apply(s, Run(tid, answer)))
  {
    var (t', e) := Step(s.proc.tasks[tid], answer);
    RunSteps(s, tid, answer);
    SteppedKeepsTasks(s, Apply(s, Run(tid, answer)), tid, t', e);
  }

  lemma LockKeepsTasks(s: Sys, pushOk: bool)
    requires Enabled(s, Lock(pushOk)) && TasksOk(s)
    ensures TasksOk(Apply(s, Lock(pushOk)))
  {
    if s.proc.queue[0].id !in s.proc.inFlight && pushOk {
      SubmitKeepsTasks(s);
    }
  }

  lemma StepKeepsTasks(s: Sys, a: Action)
    requires Enabled(s, a) && StatusesOk(s) && TasksOk(s)
    ensures TasksOk(Apply(s, a))
  {
    match a
    case Run(tid, answer) => RunKeepsTasks(s, tid, answer);
    case Lock(pushOk) => LockKeepsTasks(s, pushOk);
    case Start(_, _) => assert UnfinishedTasks(map[]) == {};
    case Crash =>
    case TakeMap => TakeKeepsProc(s.proc);
    case JoinAll => JoinKeepsProc(s.proc);
    case _ => ControlKeepsProc(s.proc, a);
  }

  // ------------------------------------------------------------ the tables

  /** The blob of the last push of `id` that no finalization hook has followed. */
  function Pending(log: seq<Event>, id: BlobId): Option<BlobToSend> {
    if log == [] then None
    else
      var e := log[|log| - 1];
      if e.Pushed? && e.id == id then Some(e.blob)
      else if e.OnFinalized? && e.id == id then None
      else Pending(log[..|log| - 1], id)
  }

  lemma PendingAfter(log: seq<Event>, e: Event)
    ensures forall id :: Pending(log + [e], id) ==
              if e.Pushed? && e.id == id then Some(e.blob)
              else if e.OnFinalized? && e.id == id then None
              else Pending(log, id)
  {
    assert (log + [e])[..|log|] == log;
  }

  predicate FinalizationSeen(log: seq<Event>, id: BlobId) {
    exists i :: 0 <= i < |log| && log[i].OnFinalized? && log[i].id == id
  }

  /** No blob that was ever pushed has left the table before its finalization hook ran. */
  ghost predicate NothingLost(s: Sys) {
    forall i :: 0 <= i < |s.log| && s.log[i].Pushed? ==>
      s.log[i].id in s.disk.blobs || FinalizationSeen(s.log, s.log[i].id)
  }

  /** Infos have their blobs, pushes that no finalization followed their own data, tasks at work their blob. */
  ghost predicate TablesOk(s: Sys) {
    && s.disk.infos.Keys <= s.disk.blobs.Keys
    && (forall id :: Pending(s.log, id).Some? ==>
          id in s.disk.blobs && s.disk.blobs[id] == Pending(s.log, id).value)
    && (s.up ==> forall tid :: tid in s.proc.tasks && s.proc.tasks[tid].Active() ==>
          s.proc.tasks[tid].id in s.disk.blobs &&
          (s.proc.tasks[tid].pc == Remove ==> Pending(s.log, s.proc.tasks[tid].id).None?))
  }

  lemma SteppedKeepsTables(s: Sys, s': Sys, tid: TaskId, t': Task, e: Effect)
    requires Stepped(s, s', tid, t', e) && TasksOk(s) && TablesOk(s)
    ensures TablesOk(s')
  {
    match e
    case CallPublished(r) => PendingAfter(s.log, OnPublished(t'.id, r));
    case CallFinalized(r, v) => PendingAfter(s.log, OnFinalized(t'.id, r, v));
    case _ => assert s.log + [] == s.log;
  }

  lemma SubmitKeepsTables(s: Sys)
    requires s.up && s.proc.queue != [] && s.proc.queue[0].id !in s.proc.inFlight && !s.proc.main.Joining?
    requires TasksOk(s) && TablesOk(s)
    ensures TablesOk(Submit(s))
  {
    var r := s.proc.queue[0];
    var p := s.proc;
    assert p.nextTask !in p.tasks;
    forall tid | tid in p.tasks && p.tasks[tid].Unfinished() ensures p.tasks[tid].id != r.id {
      assert Handled(p, tid);
    }
    PendingAfter(s.log, Pushed(r.id, r.blob));
  }

  lemma StepKeepsTables(s: Sys, a: Action)
    requires Enabled(s, a) && StatusesOk(s) && TasksOk(s) && TablesOk(s)
    ensures TablesOk(Apply(s, a))
  {
    match a
    case Run(tid, answer) =>
      var (t', e) := Step(s.proc.tasks[tid], answer);
      RunSteps(s, tid, answer);
      SteppedKeepsTables(s, Apply(s, a), tid, t', e);
    case Lock(pushOk) =>
      if s.proc.queue[0].id !in s.proc.inFlight && pushOk { SubmitKeepsTables(s); }
    case _ =>
  }

  lemma SeenStays(log: seq<Event>, more: seq<Event>)
    ensures forall id :: FinalizationSeen(log, id) ==> FinalizationSeen(log + more, id)
  {
    assert forall i :: 0 <= i < |log| ==> (log + more)[i] == log[i];
  }

  lemma SteppedLosesNothing(s: Sys, s': Sys, tid: TaskId, t': Task, e: Effect)
    requires Stepped(s, s', tid, t', e) && TaskOk(s.log, s.proc.tasks[tid]) && NothingLost(s)
    ensures NothingLost(s')
  {
    SeenStays(s.log, Noted(t'.id, e));
    if e.RemoveBlob? {
      assert FinalizationSeen(s.log, t'.id);
    }
    assert forall i :: 0 <= i < |s'.log| && s'.log[i].Pushed? ==> i < |s.log| && s.log[i] == s'.log[i];
  }

  lemma SubmitLosesNothing(s: Sys)
    requires s.proc.queue != [] && NothingLost(s)
    ensures NothingLost(Submit(s))
  {
    var e := Pushed(s.proc.queue[0].id, s.proc.queue[0].blob);
    SeenStays(s.log, [e]);
    assert forall i :: 0 <= i < |s.log| ==> (s.log + [e])[i] == s.log[i];
  }

  lemma StepLosesNothing(s: Sys, a: Action)
    requires Enabled(s, a) && StatusesOk(s) && NothingLost(s)
    ensures NothingLost(Apply(s, a))
  {
    match a
    case Run(tid, answer) =>
      var (t', e) := Step(s.proc.tasks[tid], answer);
      RunSteps(s, tid, answer);
      SteppedLosesNothing(s, Apply(s, a), tid, t', e);
    case Lock(pushOk) =>
      if s.proc.queue[0].id !in s.proc.inFlight && pushOk { SubmitLosesNothing(s); }
    case _ =>
  }

  // ------------------------------------------- every blob has a live task

  predicate Awaited(p: Proc, id: BlobId) {
    || (exists i :: 0 <= i < |p.queue| && p.queue[i].id == id)
    || (p.afterRestart.Some? && exists i :: 0 <= i < |p.afterRestart.value| && p.afterRestart.value[i].id == id)
  }

  predicate HasLiveTask(p: Proc, id: BlobId) {
    id in p.inFlight && p.inFlight[id] in p.tasks && p.tasks[p.inFlight[id]].Active()
  }

  ghost predicate Covers(p: Proc, blobs: map<BlobId, BlobToSend>) {
    !p.shutdown && !p.dbError ==>
      && (forall id :: id in blobs ==> HasLiveTask(p, id) || Awaited(p, id))
      && (forall id :: id in p.inFlight && !HasLiveTask(p, id) ==> id !in blobs)
  }

  ghost predicate Covered(s: Sys) { s.up ==> Covers(s.proc, s.disk.blobs) }

  lemma StartCovers(s: Sys, completed: seq<(BlobToSend, BlobId)>, counter: nat)
    requires !s.up
    ensures Covered(Apply(s, Start(completed, counter)))
  {
    var p := Boot(GetAll(s.disk) + FreshRequests(completed), counter);
    var ids := Ascending(s.disk.blobs.Keys);
    forall id | id in s.disk.blobs ensures Awaited(p, id) {
      var i :| 0 <= i < |ids| && ids[i] == id;
      assert p.afterRestart.value[i].id == id;
    }
  }

  lemma SteppedKeepsCovered(s: Sys, s': Sys, tid: TaskId, t': Task, e: Effect)
    requires Stepped(s, s', tid, t', e) && TasksOk(s) && Covered(s)
    requires s.proc.tasks[tid].Active() && !t'.Active() ==>
               s.proc.shutdown || e.SignalShutdown? || e.RemoveBlob? || e.RemoveRefused?
    ensures Covered(s')
  {
    var p, p' := s.proc, s'.proc;
    if !p'.shutdown && !p'.dbError {
      assert p.inFlight[t'.id] == tid;
      forall id ensures id != t'.id ==> HasLiveTask(p', id) == HasLiveTask(p, id) {}
      forall id ensures Awaited(p', id) == Awaited(p, id) {}
    }
  }

  lemma PublishCovers(p: Proc, a: Action, blobs: map<BlobId, BlobToSend>)
    requires a.Publish? && p.queue == [] && Covers(p, blobs)
    ensures Covers(Control(p, a), blobs)
  {
    var p' := Control(p, a);
    forall id | Awaited(p, id) ensures Awaited(p', id) {
      var i :| 0 <= i < |p.afterRestart.value| && p.afterRestart.value[i].id == id;
      assert p'.queue[i] == p.afterRestart.value[i];
    }
    forall id ensures HasLiveTask(p', id) == HasLiveTask(p, id) {}
  }

  /** Taking the head off the queue leaves every other request in it. */
  lemma HeadTaken(p: Proc, p': Proc)
    requires p.queue != [] && p'.queue == p.queue[1..] && p'.afterRestart == p.afterRestart
    ensures forall id :: Awaited(p, id) && id != p.queue[0].id ==> Awaited(p', id)
  {
    forall id | Awaited(p, id) && id != p.queue[0].id ensures Awaited(p', id) {
      if i :| 0 <= i < |p.queue| && p.queue[i].id == id {
        assert p'.queue[i - 1] == p.queue[i];
      }
    }
  }

  lemma AdmitCovers(p: Proc, blobs: map<BlobId, BlobToSend>)
    requires p.queue != [] && p.queue[0].id !in p.inFlight && ProcOk(p) && Covers(p, blobs)
    ensures Covers(Admit(p), blobs[p.queue[0].id := p.queue[0].blob])
  {
    var r, p' := p.queue[0], Admit(p);
    HeadTaken(p, p');
    assert p.nextTask !in p.tasks;
    forall id | id != r.id ensures HasLiveTask(p, id) == HasLiveTask(p', id) {}
    assert HasLiveTask(p', r.id);
  }

  lemma TurnAwayCovers(p: Proc, blobs: map<BlobId, BlobToSend>)
    requires p.queue != [] && Covers(p, blobs)
    ensures Covers(TurnAway(p), blobs)
  {
    var p' := TurnAway(p);
    if p.queue[0].id in p.inFlight { HeadTaken(p, p'); }
    forall id ensures HasLiveTask(p, id) == HasLiveTask(p', id) {}
  }

  lemma RunKeepsCovered(s: Sys, tid: TaskId, answer: Answer)
    requires Enabled(s, Run(tid, answer)) && StatusesOk(s) && TasksOk(s) && Covered(s)
    ensures Covered(Apply(s, Run(tid, answer)))
  {
    var (t', e) := Step(s.proc.tasks[tid], answer);
    RunSteps(s, tid, answer);
    StepMoves(s.log, s.proc.tasks[tid], answer);
    SteppedKeepsCovered(s, Apply(s, Run(tid, answer)), tid, t', e);
  }

  lemma LockKeepsCovered(s: Sys, pushOk: bool)
    requires Enabled(s, Lock(pushOk)) && TasksOk(s) && Covered(s)
    ensures Covered(Apply(s, Lock(pushOk)))
  {
    if s.proc.queue[0].id !in s.proc.inFlight && pushOk {
      AdmitCovers(s.proc, s.disk.blobs);
    } else {
      TurnAwayCovers(s.proc, s.disk.blobs);
    }
  }

  lemma StepKeepsCovered(s: Sys, a: Action)
    requires Enabled(s, a) && StatusesOk(s) && TasksOk(s) && Covered(s)
    ensures Covered(Apply(s, a))
  {
    match a
    case Start(completed, counter) => StartCovers(s, completed, counter);
    case Run(tid, answer) => RunKeepsCovered(s, tid, answer);
    case Publish(_, _) => PublishCovers(s.proc, a, s.disk.blobs);
    case Lock(pushOk) => LockKeepsCovered(s, pushOk);
    case CheckShutdown =>
      var p' := Control(s.proc, a);
      forall id ensures HasLiveTask(s.proc, id) == HasLiveTask(p', id) {}
      forall id ensures !s.proc.shutdown ==> Awaited(s.proc, id) == Awaited(p', id) {}
    case Tick =>
      var p' := Control(s.proc, a);
      forall id ensures HasLiveTask(s.proc, id) == HasLiveTask(p', id) && Awaited(s.proc, id) == Awaited(p', id) {}
    case _ =>
  }
}
