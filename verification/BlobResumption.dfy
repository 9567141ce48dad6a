/**
 What a process keeps and takes up again: the tables hold what the tasks work on, a restart goes on
 from what was saved, every request is served, and a shutdown has its reason and its effect.
 */
module BlobResumption {
  import opened Wrappers
  import opened BlobTask
  import opened BlobSenderSystem
  import opened BlobSenderProofs
  import opened BlobSenderTheorems
  import Origins = BlobOrigins

  // -------------------------------------------------------------- tables and tasks agree

  /** Past the saving of its status, and not yet finished with it. */
  predicate HasSaved(t: Task) { t.pc == Send || t.pc == Hook || t.pc == Poll }

  predicate IsStored(d: Disk, t: Task) {
    && (t.Active() ==> t.id in d.blobs && d.blobs[t.id] == t.blob)
    && (HasSaved(t) ==> t.id in d.infos && d.infos[t.id] == t.status)
  }

  ghost predicate AllStored(s: Sys) {
    s.up ==> forall tid :: tid in s.proc.tasks ==> IsStored(s.disk, s.proc.tasks[tid])
  }

  lemma StepIsStored(d: Disk, t: Task, a: Answer)
    requires Accepts(t, a) && IsStored(d, t)
    ensures IsStored(OnDisk(d, t.id, Step(t, a).1), Step(t, a).0)
  {
  }

  /** What one task does to the tables does not touch another blob. */
  lemma OthersStayStored(d: Disk, id: BlobId, e: Effect, u: Task)
    requires IsStored(d, u) && u.id != id
    ensures IsStored(OnDisk(d, id, e), u)
  {
  }

  lemma QuietTasksStayStored(d: Disk, id: BlobId, e: Effect, u: Task)
    requires IsStored(d, u) && !u.Unfinished()
    ensures IsStored(OnDisk(d, id, e), u)
  {
  }

  lemma RunDoes(s: Sys, tid: TaskId, a: Answer)
    requires Enabled(s, Run(tid, a))
    ensures var t, s' := s.proc.tasks[tid], Apply(s, Run(tid, a));
            var (t', e) := Step(t, a);
            && s'.up && s'.disk == OnDisk(s.disk, t.id, e) && s'.proc.tasks == s.proc.tasks[tid := t'] && t'.id == t.id
            && s'.proc.shutdown == (s.proc.shutdown || e.SignalShutdown?) && s'.log == s.log + Noted(t.id, e)
            && s'.proc.queue == s.proc.queue && s'.proc.afterRestart == s.proc.afterRestart
            && s'.proc.checked == s.proc.checked
  {
    Origins.SameBlob(s.proc.tasks[tid], a);
  }

  lemma RunIsStored(s: Sys, tid: TaskId, a: Answer)
    requires Enabled(s, Run(tid, a)) && TasksOk(s) && AllStored(s)
    ensures AllStored(Apply(s, Run(tid, a)))
  {
    RunDoes(s, tid, a);
    forall u | u in s.proc.tasks ensures IsStored(Apply(s, Run(tid, a)).disk, Apply(s, Run(tid, a)).proc.tasks[u]) {
      if u == tid {
        StepIsStored(s.disk, s.proc.tasks[tid], a);
      } else {
        OtherIsStored(s, tid, Step(s.proc.tasks[tid], a).1, u);
      }
    }
  }

  lemma OtherIsStored(s: Sys, tid: TaskId, e: Effect, u: TaskId)
    requires s.up && tid in s.proc.tasks && u in s.proc.tasks && u != tid && s.proc.tasks[tid].Unfinished()
    requires TasksOk(s) && AllStored(s)
    ensures IsStored(OnDisk(s.disk, s.proc.tasks[tid].id, e), s.proc.tasks[u])
  {
    if s.proc.tasks[u].Unfinished() {
      OthersStayStored(s.disk, s.proc.tasks[tid].id, e, s.proc.tasks[u]);
    } else {
      QuietTasksStayStored(s.disk, s.proc.tasks[tid].id, e, s.proc.tasks[u]);
    }
  }

  lemma PushIsStored(d: Disk, id: BlobId, blob: BlobToSend, u: Task)
    requires IsStored(d, u) && (u.Unfinished() ==> u.id != id)
    ensures IsStored(d.(blobs := d.blobs[id := blob]), u)
  {
  }

  lemma SubmitIsStored(s: Sys)
    requires s.up && s.proc.queue != [] && s.proc.queue[0].id !in s.proc.inFlight && !s.proc.main.Joining?
    requires TasksOk(s) && AllStored(s)
    ensures AllStored(Submit(s))
  {
    var r, p := s.proc.queue[0], s.proc;
    forall u | u in p.tasks ensures IsStored(Submit(s).disk, p.tasks[u]) {
      assert p.tasks[u].Unfinished() ==> Handled(p, u);
      PushIsStored(s.disk, r.id, r.blob, p.tasks[u]);
    }
  }

  lemma StepKeepsStored(s: Sys, a: Action)
    requires Enabled(s, a) && TasksOk(s) && AllStored(s)
    ensures AllStored(Apply(s, a))
  {
    match a
    case Run(tid, answer) => RunIsStored(s, tid, answer);
    case Lock(pushOk) =>
      if s.proc.queue[0].id !in s.proc.inFlight && pushOk {
        SubmitIsStored(s);
      }
    case _ =>
  }

  lemma {:induction false} RunsKeepStored(s: Sys, acts: seq<Action>)
    requires Inv(s) && ValidRun(s, acts) && AllStored(s)
    ensures AllStored(Exec(s, acts))
    decreases |acts|
  {
    if acts != [] {
      StepKeepsStored(s, acts[0]);
      StepKeepsInv(s, acts[0]);
      RunsKeepStored(Apply(s, acts[0]), acts[1..]);
    }
  }

  /**
   At all times a task at work works on the blob the table has for it, and once it has saved its
   status the database has that status, so a crash loses nothing of it.
   */
  lemma TasksAreStored(s0: Sys, acts: seq<Action>, tid: TaskId)
    requires Init(s0) && ValidRun(s0, acts) && Exec(s0, acts).up && tid in Exec(s0, acts).proc.tasks
    ensures IsStored(Exec(s0, acts).disk, Exec(s0, acts).proc.tasks[tid])
  {
    RunsKeepStored(s0, acts);
  }

  // ------------------------------------------------------------------- taking up what was saved

  function PendingOf(p: Proc): seq<Request> {
    if p.afterRestart.Some? then p.afterRestart.value else p.queue
  }

  function FirstFor(rs: seq<Request>, id: BlobId): Option<Request> {
    if rs == [] then None else if rs[0].id == id then Some(rs[0]) else FirstFor(rs[1..], id)
  }

  /** The stored blob with its saved status, or to be submitted. */
  function Resumed(d: Disk, id: BlobId): Request
    requires id in d.blobs
  {
    Request(d.blobs[id], id, if id in d.infos then d.infos[id] else FRESH)
  }

  predicate HasNoTask(p: Proc, id: BlobId) { forall tid :: tid in p.tasks ==> p.tasks[tid].id != id }

  ghost predicate Resuming(p: Proc, d: Disk) {
    && (p.afterRestart.Some? ==> p.queue == [])
    && (!p.shutdown || p.checked ==>
          forall id :: id in d.blobs && HasNoTask(p, id) ==> FirstFor(PendingOf(p), id) == Some(Resumed(d, id)))
  }

  lemma {:induction false} FirstInParts(a: seq<Request>, b: seq<Request>, id: BlobId)
    ensures FirstFor(a + b, id) == if FirstFor(a, id).Some? then FirstFor(a, id) else FirstFor(b, id)
    decreases |a|
  {
    if a == [] {
      assert a + b == b;
    } else {
      assert (a + b)[1..] == a[1..] + b;
      FirstInParts(a[1..], b, id);
    }
  }

  lemma {:induction false} FirstIsTheOnly(rs: seq<Request>, r: Request)
    requires r in rs && forall q :: q in rs && q.id == r.id ==> q == r
    ensures FirstFor(rs, r.id) == Some(r)
  {
    if rs[0].id != r.id {
      FirstIsTheOnly(rs[1..], r);
    }
  }

  lemma AllAreResumed(d: Disk, id: BlobId)
    requires id in d.blobs
    ensures FirstFor(GetAll(d), id) == Some(Resumed(d, id))
  {
    var ids := Ascending(d.blobs.Keys);
    var i :| 0 <= i < |ids| && ids[i] == id;
    assert GetAll(d)[i] == Resumed(d, id);
    forall q | q in GetAll(d) && q.id == id ensures q == Resumed(d, id) {
      var j :| 0 <= j < |ids| && GetAll(d)[j] == q;
    }
    FirstIsTheOnly(GetAll(d), Resumed(d, id));
  }

  lemma StartResumes(s: Sys, completed: seq<(BlobToSend, BlobId)>, counter: nat)
    requires !s.up
    ensures Resuming(Apply(s, Start(completed, counter)).proc, s.disk)
  {
    forall id | id in s.disk.blobs
      ensures FirstFor(GetAll(s.disk) + FreshRequests(completed), id) == Some(Resumed(s.disk, id))
    {
      AllAreResumed(s.disk, id);
      FirstInParts(GetAll(s.disk), FreshRequests(completed), id);
    }
  }

  predicate WithinProcess(acts: seq<Action>) {
    forall i :: 0 <= i < |acts| ==> !acts[i].Start? && acts[i] != Lock(false)
  }

  lemma ControlResumes(p: Proc, a: Action, d: Disk)
    requires a.Publish? || a.CheckShutdown? || a.Tick? || a.Signal? || a.TakeMap? || a.JoinAll?
    requires (a.CheckShutdown? ==> p.queue != [] && !p.checked) && (a.Publish? ==> p.queue == []) && Resuming(p, d)
    ensures Resuming(Control(p, a), d)
  {
    var p' := Control(p, a);
    if a.Publish? && (!p'.shutdown || p'.checked) {
      var first := if p.afterRestart.Some? then p.afterRestart.value else [];
      forall id | id in d.blobs && HasNoTask(p', id) ensures FirstFor(PendingOf(p'), id) == Some(Resumed(d, id)) {
        assert HasNoTask(p, id);
        FirstInParts(first, [Request(a.blob, a.id, FRESH)], id);
      }
    } else {
      forall id | HasNoTask(p', id) ensures HasNoTask(p, id) {}
    }
  }

  lemma LockResumes(s: Sys, d: Disk)
    requires Enabled(s, Lock(true)) && ProcOk(s.proc) && Resuming(s.proc, d)
    ensures Resuming(Apply(s, Lock(true)).proc, d)
  {
    var p, p' := s.proc, Apply(s, Lock(true)).proc;
    forall id | id in d.blobs && HasNoTask(p', id) && !p'.shutdown
      ensures FirstFor(PendingOf(p'), id) == Some(Resumed(d, id))
    {
      NoTaskBefore(s, id);
    }
  }

  lemma NoTaskBefore(s: Sys, id: BlobId)
    requires Enabled(s, Lock(true)) && ProcOk(s.proc) && HasNoTask(Apply(s, Lock(true)).proc, id)
    ensures HasNoTask(s.proc, id) && s.proc.queue[0].id != id
  {
    var p, p' := s.proc, Apply(s, Lock(true)).proc;
    forall tid | tid in p.tasks ensures p.tasks[tid].id != id {
      assert p'.tasks[tid] == p.tasks[tid];
    }
    if p.queue[0].id in p.inFlight {
      assert p.inFlight[p.queue[0].id] in p.tasks;
    } else {
      assert p'.tasks[p.nextTask].id == p.queue[0].id;
    }
  }

  lemma RunResumes(s: Sys, tid: TaskId, a: Answer, d: Disk)
    requires Enabled(s, Run(tid, a)) && Resuming(s.proc, d)
    ensures Resuming(Apply(s, Run(tid, a)).proc, d)
  {
    var p, p' := s.proc, Apply(s, Run(tid, a)).proc;
    RunDoes(s, tid, a);
    forall id | HasNoTask(p', id) ensures HasNoTask(p, id) {
      forall u | u in p.tasks ensures p.tasks[u].id != id {
        assert p'.tasks[u].id == p.tasks[u].id;
      }
    }
  }

  lemma StepResumes(s: Sys, a: Action, d: Disk)
    requires Enabled(s, a) && TasksOk(s) && s.up && Resuming(s.proc, d) && !a.Start? && a != Lock(false)
    ensures Resuming(Apply(s, a).proc, d)
  {
    match a
    case Crash =>
    case Run(tid, answer) => RunResumes(s, tid, answer, d);
    case Lock(_) => LockResumes(s, d);
    case _ => ControlResumes(s.proc, a, d);
  }

  lemma {:induction false} RunsResume(s: Sys, acts: seq<Action>, d: Disk)
    requires Inv(s) && s.up && ValidRun(s, acts) && WithinProcess(acts) && Resuming(s.proc, d) && Exec(s, acts).up
    ensures Resuming(Exec(s, acts).proc, d)
    decreases |acts|
  {
    if acts != [] {
      StepResumes(s, acts[0], d);
      StepKeepsInv(s, acts[0]);
      StaysDown(Apply(s, acts[0]), acts[1..]);
      RunsResume(Apply(s, acts[0]), acts[1..], d);
    }
  }

  /** Within a process, nothing follows a crash. */
  lemma StaysDown(s: Sys, acts: seq<Action>)
    requires ValidRun(s, acts) && WithinProcess(acts) && Exec(s, acts).up
    ensures s.up
  {
  }

  /**
   After a restart, as long as no push fails, the first task of a blob that was in the table works on the
   stored blob and begins with the status saved for it, or afresh if there is none.
   */
  lemma FirstTaskResumes(
      s0: Sys, before: seq<Action>, completed: seq<(BlobToSend, BlobId)>, counter: nat, acts: seq<Action>)
    requires Init(s0) && ValidRun(s0, before) && !Exec(s0, before).up
    requires var s := Apply(Exec(s0, before), Start(completed, counter));
             ValidRun(s, acts) && WithinProcess(acts) && Enabled(Exec(s, acts), Lock(true))
    requires var d, s := Exec(s0, before).disk, Exec(Apply(Exec(s0, before), Start(completed, counter)), acts);
             s.proc.queue[0].id in d.blobs && HasNoTask(s.proc, s.proc.queue[0].id)
    ensures var d, s := Exec(s0, before).disk, Exec(Apply(Exec(s0, before), Start(completed, counter)), acts);
            var id, p' := s.proc.queue[0].id, Apply(s, Lock(true)).proc;
            && s.proc.nextTask in p'.tasks
            && p'.tasks[s.proc.nextTask] ==
               Task(id, d.blobs[id], if id in d.infos then d.infos[id] else FRESH, Enter, 0, 0, 0)
  {
    var dark := Exec(s0, before);
    var s1 := Apply(dark, Start(completed, counter));
    Reachable(s0, before);
    StepKeepsInv(dark, Start(completed, counter));
    StartResumes(dark, completed, counter);
    RunsResume(s1, acts, dark.disk);
    var s := Exec(s1, acts);
    RunsKeepInv(s1, acts);
    assert s.proc.afterRestart.None?;
    assert FirstFor(s.proc.queue, s.proc.queue[0].id) == Some(s.proc.queue[0]);
    NotInFlight(s.proc, s.proc.queue[0].id);
  }

  lemma NotInFlight(p: Proc, id: BlobId)
    requires ProcOk(p) && HasNoTask(p, id)
    ensures id !in p.inFlight
  {
  }

  // -------------------------------------------------------------- every request is served

  predicate IsPushed(log: seq<Event>, id: BlobId) { exists i :: 0 <= i < |log| && log[i].Pushed? && log[i].id == id }

  lemma PushedStays(log: seq<Event>, more: seq<Event>, id: BlobId)
    requires IsPushed(log, id)
    ensures IsPushed(log + more, id)
  {
    var i :| 0 <= i < |log| && log[i].Pushed? && log[i].id == id;
    assert (log + more)[i] == log[i];
  }

  ghost predicate Serving(s: Sys, asked: set<BlobId>) {
    && (s.proc.afterRestart.Some? ==> s.proc.queue == [])
    && (forall tid :: tid in s.proc.tasks ==> IsPushed(s.log, s.proc.tasks[tid].id))
    && (!s.proc.shutdown ==> forall id :: id in asked ==> Awaited(s.proc, id) || IsPushed(s.log, id))
  }

  function Asked(a: Action): set<BlobId> { if a.Publish? then {a.id} else {} }

  function AskedIn(acts: seq<Action>): set<BlobId> {
    if acts == [] then {} else Asked(acts[0]) + AskedIn(acts[1..])
  }

  function IdsOf(completed: seq<(BlobToSend, BlobId)>): set<BlobId> {
    set i | 0 <= i < |completed| :: completed[i].1
  }

  lemma StartServes(s: Sys, completed: seq<(BlobToSend, BlobId)>, counter: nat)
    requires !s.up
    ensures Serving(Apply(s, Start(completed, counter)), IdsOf(completed))
  {
    var p, all := Apply(s, Start(completed, counter)).proc, GetAll(s.disk);
    forall id | id in IdsOf(completed) ensures Awaited(p, id) {
      var i :| 0 <= i < |completed| && completed[i].1 == id;
      assert p.afterRestart.value[|all| + i] == FreshRequests(completed)[i];
    }
  }

  lemma ControlServes(s: Sys, a: Action, asked: set<BlobId>)
    requires a.Publish? || a.CheckShutdown? || a.Tick? || a.Signal? || a.TakeMap? || a.JoinAll?
    requires Enabled(s, a) && Serving(s, asked)
    ensures Serving(Apply(s, a), asked + Asked(a))
  {
    var p, p' := s.proc, Control(s.proc, a);
    if a.Publish? {
      assert p'.queue[|p'.queue| - 1].id == a.id;
      forall id | Awaited(p, id) ensures Awaited(p', id) {
        var i :| 0 <= i < |p.afterRestart.value| && p.afterRestart.value[i].id == id;
        assert p'.queue[i] == p.afterRestart.value[i];
      }
    } else if !p'.shutdown {
      forall id | Awaited(p, id) ensures Awaited(p', id) {}
    }
  }

  lemma LockServes(s: Sys, asked: set<BlobId>)
    requires Enabled(s, Lock(true)) && ProcOk(s.proc) && Serving(s, asked)
    ensures Serving(Apply(s, Lock(true)), asked)
  {
    var p, s' := s.proc, Apply(s, Lock(true));
    var id := p.queue[0].id;
    HeadTaken(p, s'.proc);
    assert IsPushed(s'.log, id) by {
      if id in p.inFlight {
        assert IsPushed(s.log, p.tasks[p.inFlight[id]].id);
      } else {
        assert s'.log[|s.log|] == Pushed(id, p.queue[0].blob);
      }
    }
    forall x | IsPushed(s.log, x) ensures IsPushed(s'.log, x) {
      PushedStays(s.log, s'.log[|s.log|..], x);
      assert s'.log == s.log + s'.log[|s.log|..];
    }
  }

  lemma RunServes(s: Sys, tid: TaskId, a: Answer, asked: set<BlobId>)
    requires Enabled(s, Run(tid, a)) && Serving(s, asked)
    ensures Serving(Apply(s, Run(tid, a)), asked)
  {
    var s' := Apply(s, Run(tid, a));
    RunDoes(s, tid, a);
    forall x | IsPushed(s.log, x) ensures IsPushed(s'.log, x) {
      PushedStays(s.log, Noted(s.proc.tasks[tid].id, Step(s.proc.tasks[tid], a).1), x);
    }
    forall x | Awaited(s.proc, x) ensures Awaited(s'.proc, x) {}
  }

  lemma StepServes(s: Sys, a: Action, asked: set<BlobId>)
    requires Enabled(s, a) && TasksOk(s) && s.up && Serving(s, asked) && !a.Start? && a != Lock(false)
    ensures Serving(Apply(s, a), asked + Asked(a))
  {
    match a
    case Crash =>
    case Run(tid, answer) => RunServes(s, tid, answer, asked);
    case Lock(_) => LockServes(s, asked);
    case _ => ControlServes(s, a, asked);
  }

  lemma NextServes(s: Sys, acts: seq<Action>, asked: set<BlobId>)
    requires Inv(s) && s.up && acts != [] && ValidRun(s, acts) && WithinProcess(acts) && Serving(s, asked)
    requires Exec(s, acts).up
    ensures Inv(Apply(s, acts[0])) && Apply(s, acts[0]).up && Serving(Apply(s, acts[0]), asked + Asked(acts[0]))
  {
    StepServes(s, acts[0], asked);
    StepKeepsInv(s, acts[0]);
    StaysDown(Apply(s, acts[0]), acts[1..]);
  }

  lemma {:induction false} RunsServe(s: Sys, acts: seq<Action>, asked: set<BlobId>)
    requires Inv(s) && s.up && ValidRun(s, acts) && WithinProcess(acts) && Serving(s, asked) && Exec(s, acts).up
    ensures Serving(Exec(s, acts), asked + AskedIn(acts))
    decreases |acts|
  {
    if acts == [] {
      assert asked + AskedIn(acts) == asked;
    } else {
      NextServes(s, acts, asked);
      RunsServe(Apply(s, acts[0]), acts[1..], asked + Asked(acts[0]));
      assert asked + Asked(acts[0]) + AskedIn(acts[1..]) == asked + AskedIn(acts);
    }
  }

  /**
   Once the publish calls of a process have run to their end, with no shutdown and no failing push, every
   blob they were called for and every blob handed to the start has been pushed.
   */
  lemma EveryRequestIsPushed(
      s0: Sys, before: seq<Action>, completed: seq<(BlobToSend, BlobId)>, counter: nat, acts: seq<Action>, id: BlobId)
    requires Init(s0) && ValidRun(s0, before) && !Exec(s0, before).up
    requires var s := Apply(Exec(s0, before), Start(completed, counter));
             && ValidRun(s, acts) && WithinProcess(acts) && Exec(s, acts).up && !Exec(s, acts).proc.shutdown
             && Exec(s, acts).proc.queue == [] && Exec(s, acts).proc.afterRestart.None?
    requires id in IdsOf(completed) + AskedIn(acts)
    ensures IsPushed(Exec(Apply(Exec(s0, before), Start(completed, counter)), acts).log, id)
  {
    var dark := Exec(s0, before);
    var s1 := Apply(dark, Start(completed, counter));
    Reachable(s0, before);
    StepKeepsInv(dark, Start(completed, counter));
    StartServes(dark, completed, counter);
    RunsServe(s1, acts, IdsOf(completed));
    assert !Awaited(Exec(s1, acts).proc, id);
  }

  // -------------------------------------------------------------------------- shutting down

  predicate NoStart(acts: seq<Action>) { forall i :: 0 <= i < |acts| ==> !acts[i].Start? }

  /** Nothing passes the shutdown check any more. */
  lemma {:induction false} ClosedStaysClosed(s: Sys, acts: seq<Action>)
    requires ValidRun(s, acts) && NoStart(acts) && (s.up ==> s.proc.shutdown && !s.proc.checked)
    ensures var s' := Exec(s, acts);
            && (s'.up ==> s'.proc.shutdown && !s'.proc.checked) && s'.proc.tasks.Keys == s.proc.tasks.Keys
            && s'.disk.blobs.Keys <= s.disk.blobs.Keys
            && forall id :: IsPushed(s'.log, id) ==> IsPushed(s.log, id)
    decreases |acts|
  {
    if acts != [] {
      ClosedStep(s, acts[0]);
      ClosedStaysClosed(Apply(s, acts[0]), acts[1..]);
    }
  }

  lemma ClosedStep(s: Sys, a: Action)
    requires Enabled(s, a) && !a.Start? && s.proc.shutdown && !s.proc.checked
    ensures var s' := Apply(s, a);
            && (s'.up ==> s'.proc.shutdown && !s'.proc.checked) && s'.proc.tasks.Keys == s.proc.tasks.Keys
            && s'.disk.blobs.Keys <= s.disk.blobs.Keys
            && forall id :: IsPushed(s'.log, id) ==> IsPushed(s.log, id)
  {
    if a.Run? {
      RunDoes(s, a.tid, a.answer);
      var more := Noted(s.proc.tasks[a.tid].id, Step(s.proc.tasks[a.tid], a.answer).1);
      forall id | IsPushed(s.log + more, id) ensures IsPushed(s.log, id) {
        var i :| 0 <= i < |s.log + more| && (s.log + more)[i].Pushed? && (s.log + more)[i].id == id;
        assert i < |s.log|;
      }
    }
  }

  /** From a shutdown signal on, unless a call has just passed its check, no blob is pushed and no task spawned. */
  lemma ShutdownStopsPushes(s: Sys, acts: seq<Action>)
    requires Enabled(s, Signal) && !s.proc.checked && ValidRun(Apply(s, Signal), acts) && NoStart(acts)
    ensures var s' := Exec(Apply(s, Signal), acts);
            && s'.proc.tasks.Keys == s.proc.tasks.Keys && s'.disk.blobs.Keys <= s.disk.blobs.Keys
            && forall id :: IsPushed(s'.log, id) ==> IsPushed(s.log, id)
  {
    ClosedStaysClosed(Apply(s, Signal), acts);
  }

  /** A signal from outside, a failed save or sending, a ledger error, or a timeout with no submission left. */
  predicate IsReason(m: Origins.Moment) {
    m.a == Signal ||
    (m.a.Run? && m.a.tid in m.s.proc.tasks &&
     (m.a.answer == SaveFailed || m.a.answer == SendFailed || m.a.answer == LedgerError ||
      (m.a.answer == TimedOut && m.s.proc.tasks[m.a.tid].retries >= 3)))
  }

  ghost predicate HasReason(h: seq<Origins.Moment>) { exists i :: 0 <= i < |h| && IsReason(h[i]) }

  lemma {:induction false} ShutdownHasAReason(s: Sys, acts: seq<Action>)
    requires ValidRun(s, acts) && NoStart(acts) && !s.proc.shutdown
    ensures Exec(s, acts).proc.shutdown ==> HasReason(Origins.History(s, acts))
    decreases |acts|
  {
    if acts != [] && Exec(s, acts).proc.shutdown {
      var m, s1, rest := Origins.Moment(s, acts[0]), Apply(s, acts[0]), acts[1..];
      var h := [m] + Origins.History(s1, rest);
      if s1.proc.shutdown {
        SignalledFor(s, acts[0]);
        assert h[0] == m;
      } else {
        ShutdownHasAReason(s1, rest);
        var i :| 0 <= i < |Origins.History(s1, rest)| && IsReason(Origins.History(s1, rest)[i]);
        assert h[i + 1] == Origins.History(s1, rest)[i];
      }
    }
  }

  lemma SignalledFor(s: Sys, a: Action)
    requires Enabled(s, a) && !a.Start? && !s.proc.shutdown && Apply(s, a).proc.shutdown
    ensures IsReason(Origins.Moment(s, a))
  {
    if a.Run? {
      RunDoes(s, a.tid, a.answer);
    }
  }
}
