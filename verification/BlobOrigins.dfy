/**
 Where everything comes from, over every run with any crashes and restarts: the data in the
 tables and tasks from the callers, the receipts from the DA layer, the verdicts and the
 finality from the ledger.
 */
module BlobOrigins {
  import opened Wrappers
  import opened BlobTask
  import opened BlobSenderSystem
  import opened BlobSenderProofs

  /** An action of a run, and the state it happened in. */
  datatype Moment = Moment(s: Sys, a: Action)

  ghost function History(s: Sys, acts: seq<Action>): seq<Moment>
    requires ValidRun(s, acts)
    decreases |acts|
  {
    if acts == [] then [] else [Moment(s, acts[0])] + History(Apply(s, acts[0]), acts[1..])
  }

  /** A caller of the node hands in this blob under this id. */
  predicate HandsIn(m: Moment, id: BlobId, blob: BlobToSend) {
    m.a == Publish(blob, id) || (m.a.Start? && (blob, id) in m.a.completed)
  }

  /** A task of this blob gets an answer. */
  predicate Answers(m: Moment, id: BlobId) {
    m.a.Run? && m.s.up && m.a.tid in m.s.proc.tasks && m.s.proc.tasks[m.a.tid].id == id
  }

  predicate Sends(m: Moment, id: BlobId, r: Receipt) {
    Answers(m, id) && m.s.proc.tasks[m.a.tid].pc == Send && m.a.answer == SendOk(r)
  }

  predicate Judges(m: Moment, id: BlobId, r: Receipt, v: SelectorStatus) {
    Answers(m, id) && m.s.proc.tasks[m.a.tid].pc == Poll &&
    m.s.proc.tasks[m.a.tid].status.submission == Published(r) &&
    m.a.answer.LedgerSays? && m.a.answer.finality.Some? && m.a.answer.finality.value.1 == v
  }

  predicate CallsFinal(m: Moment, id: BlobId, r: Receipt, v: SelectorStatus) {
    Answers(m, id) && m.s.proc.tasks[m.a.tid].pc == Poll &&
    m.s.proc.tasks[m.a.tid].status.submission == Processed(r) && m.a.answer == LedgerSays(Some((true, v)))
  }

  ghost predicate HandedIn(h: seq<Moment>, id: BlobId, blob: BlobToSend) {
    exists i :: 0 <= i < |h| && HandsIn(h[i], id, blob)
  }

  ghost predicate Sent(h: seq<Moment>, id: BlobId, r: Receipt) { exists i :: 0 <= i < |h| && Sends(h[i], id, r) }

  ghost predicate Judged(h: seq<Moment>, id: BlobId, r: Receipt, v: SelectorStatus) {
    exists i :: 0 <= i < |h| && Judges(h[i], id, r, v)
  }

  ghost predicate CalledFinal(h: seq<Moment>, id: BlobId, r: Receipt, v: SelectorStatus) {
    exists i :: 0 <= i < |h| && CallsFinal(h[i], id, r, v)
  }

  // ------------------------------------------------------------------------ the invariant

  ghost predicate StatusWhy(h: seq<Moment>, id: BlobId, st: ExecutionStatus) {
    match st.submission
    case MustSubmit => st == FRESH
    case Published(r) => st.selector == None && Sent(h, id, r)
    case Processed(r) => Sent(h, id, r) && st.selector.Some? && Judged(h, id, r, st.selector.value)
    case Finalized(r) => Sent(h, id, r) && st.selector.Some? && CalledFinal(h, id, r, st.selector.value)
  }

  ghost predicate EventWhy(h: seq<Moment>, e: Event) {
    match e
    case Pushed(id, blob) => HandedIn(h, id, blob)
    case OnPublished(id, r) => Sent(h, id, r)
    case OnFinalized(id, r, v) => CalledFinal(h, id, r, v)
  }

  ghost predicate LogWhy(h: seq<Moment>, log: seq<Event>) { forall e :: e in log ==> EventWhy(h, e) }

  ghost predicate DiskWhy(h: seq<Moment>, d: Disk) {
    && (forall id :: id in d.blobs ==> HandedIn(h, id, d.blobs[id]))
    && (forall id :: id in d.infos ==> StatusWhy(h, id, d.infos[id]))
  }

  ghost predicate RequestWhy(h: seq<Moment>, r: Request) { HandedIn(h, r.id, r.blob) && StatusWhy(h, r.id, r.status) }

  ghost predicate TaskWhy(h: seq<Moment>, t: Task) { HandedIn(h, t.id, t.blob) && StatusWhy(h, t.id, t.status) }

  ghost predicate ProcWhy(h: seq<Moment>, p: Proc) {
    && (forall r :: Requested(p, r) ==> RequestWhy(h, r))
    && (forall tid :: tid in p.tasks ==> TaskWhy(h, p.tasks[tid]))
  }

  ghost predicate Why(h: seq<Moment>, s: Sys) {
    LogWhy(h, s.log) && DiskWhy(h, s.disk) && (s.up ==> ProcWhy(h, s.proc))
  }

  // ---------------------------------------------------------------- what was, stays explained

  lemma Later(h: seq<Moment>, m: Moment)
    ensures forall id, blob :: HandedIn(h, id, blob) ==> HandedIn(h + [m], id, blob)
    ensures forall id, r :: Sent(h, id, r) ==> Sent(h + [m], id, r)
    ensures forall id, r, v :: Judged(h, id, r, v) ==> Judged(h + [m], id, r, v)
    ensures forall id, r, v :: CalledFinal(h, id, r, v) ==> CalledFinal(h + [m], id, r, v)
  {
    assert forall i :: 0 <= i < |h| ==> (h + [m])[i] == h[i];
  }

  lemma StatusLater(h: seq<Moment>, m: Moment, id: BlobId, st: ExecutionStatus)
    requires StatusWhy(h, id, st)
    ensures StatusWhy(h + [m], id, st)
  {
    Later(h, m);
  }

  lemma EventLater(h: seq<Moment>, m: Moment, e: Event)
    requires EventWhy(h, e)
    ensures EventWhy(h + [m], e)
  {
    Later(h, m);
  }

  lemma DiskLater(h: seq<Moment>, m: Moment, d: Disk)
    requires DiskWhy(h, d)
    ensures DiskWhy(h + [m], d)
  {
    Later(h, m);
    forall id | id in d.infos ensures StatusWhy(h + [m], id, d.infos[id]) {
      StatusLater(h, m, id, d.infos[id]);
    }
  }

  lemma ProcLater(h: seq<Moment>, m: Moment, p: Proc)
    requires ProcWhy(h, p)
    ensures ProcWhy(h + [m], p)
  {
    Later(h, m);
    forall r | Requested(p, r) ensures RequestWhy(h + [m], r) {
      StatusLater(h, m, r.id, r.status);
    }
    forall tid | tid in p.tasks ensures TaskWhy(h + [m], p.tasks[tid]) {
      StatusLater(h, m, p.tasks[tid].id, p.tasks[tid].status);
    }
  }

  lemma WhyLater(h: seq<Moment>, m: Moment, s: Sys)
    requires Why(h, s)
    ensures Why(h + [m], s)
  {
    forall e | e in s.log ensures EventWhy(h + [m], e) {
      EventLater(h, m, e);
    }
    DiskLater(h, m, s.disk);
    if s.up {
      ProcLater(h, m, s.proc);
    }
  }

  // ---------------------------------------------------------------------------- the steps

  lemma IsThere(h: seq<Moment>, m: Moment)
    ensures forall id, blob :: HandsIn(m, id, blob) ==> HandedIn(h + [m], id, blob)
    ensures forall id, r :: Sends(m, id, r) ==> Sent(h + [m], id, r)
    ensures forall id, r, v :: Judges(m, id, r, v) ==> Judged(h + [m], id, r, v)
    ensures forall id, r, v :: CallsFinal(m, id, r, v) ==> CalledFinal(h + [m], id, r, v)
  {
    assert (h + [m])[|h|] == m;
  }

  lemma StartWhy(h: seq<Moment>, s: Sys, completed: seq<(BlobToSend, BlobId)>, counter: nat)
    requires !s.up && Why(h, s)
    ensures Why(h + [Moment(s, Start(completed, counter))], Apply(s, Start(completed, counter)))
  {
    var m, s' := Moment(s, Start(completed, counter)), Apply(s, Start(completed, counter));
    WhyLater(h, m, s);
    IsThere(h, m);
    var ids, g := Ascending(s.disk.blobs.Keys), h + [m];
    forall r | Requested(s'.proc, r) ensures RequestWhy(g, r) {
      if r in GetAll(s.disk) {
        var i :| 0 <= i < |ids| && r == GetAll(s.disk)[i];
        assert ids[i] in s.disk.blobs;
      } else {
        var i :| 0 <= i < |completed| && r == FreshRequests(completed)[i];
        assert (r.blob, r.id) == completed[i];
        assert HandsIn(m, r.id, r.blob);
      }
    }
  }

  lemma ControlWhy(h: seq<Moment>, s: Sys, a: Action)
    requires a.Publish? || a.CheckShutdown? || a.Tick? || a.Signal? || a.TakeMap? || a.JoinAll?
    requires Enabled(s, a) && Why(h, s)
    ensures Why(h + [Moment(s, a)], Apply(s, a))
  {
    var m, p' := Moment(s, a), Control(s.proc, a);
    WhyLater(h, m, s);
    IsThere(h, m);
    forall r | Requested(p', r) ensures RequestWhy(h + [m], r) {
      if !Requested(s.proc, r) {
        assert r == Request(a.blob, a.id, FRESH) && HandsIn(m, a.id, a.blob);
      }
    }
  }

  lemma LockWhy(h: seq<Moment>, s: Sys, pushOk: bool)
    requires Enabled(s, Lock(pushOk)) && Why(h, s)
    ensures Why(h + [Moment(s, Lock(pushOk))], Apply(s, Lock(pushOk)))
  {
    var m, s' := Moment(s, Lock(pushOk)), Apply(s, Lock(pushOk));
    var r, g := s.proc.queue[0], h + [m];
    WhyLater(h, m, s);
    assert Requested(s.proc, r);
    forall q | Requested(s'.proc, q) ensures RequestWhy(g, q) {
      assert Requested(s.proc, q);
    }
    forall e | e in s'.log ensures EventWhy(g, e) {
      assert e in s.log || e == Pushed(r.id, r.blob);
    }
  }

  /** The answer explains the new status. */
  lemma AnswerWhy(h: seq<Moment>, s: Sys, tid: TaskId, a: Answer)
    requires Enabled(s, Run(tid, a)) && TaskWhy(h, s.proc.tasks[tid])
    ensures TaskWhy(h + [Moment(s, Run(tid, a))], Step(s.proc.tasks[tid], a).0)
  {
    var m, t := Moment(s, Run(tid, a)), s.proc.tasks[tid];
    SameBlob(t, a);
    HandedLater(h, m, t.id, t.blob);
    StatusLater(h, m, t.id, t.status);
    if Step(t, a).0.status != t.status {
      NewStatusWhy(h, s, tid, a);
    }
  }

  lemma SameBlob(t: Task, a: Answer)
    requires Accepts(t, a)
    ensures Step(t, a).0.id == t.id && Step(t, a).0.blob == t.blob
  {
  }

  lemma HandedLater(h: seq<Moment>, m: Moment, id: BlobId, blob: BlobToSend)
    requires HandedIn(h, id, blob)
    ensures HandedIn(h + [m], id, blob)
  {
    var i :| 0 <= i < |h| && HandsIn(h[i], id, blob);
    assert (h + [m])[i] == h[i];
  }

  lemma NewStatusWhy(h: seq<Moment>, s: Sys, tid: TaskId, a: Answer)
    requires Enabled(s, Run(tid, a))
    requires StatusWhy(h + [Moment(s, Run(tid, a))], s.proc.tasks[tid].id, s.proc.tasks[tid].status)
    requires Step(s.proc.tasks[tid], a).0.status != s.proc.tasks[tid].status
    ensures StatusWhy(h + [Moment(s, Run(tid, a))], s.proc.tasks[tid].id, Step(s.proc.tasks[tid], a).0.status)
  {
    var m, t := Moment(s, Run(tid, a)), s.proc.tasks[tid];
    var now := Step(t, a).0.status;
    assert (h + [m])[|h|] == m;
    match now.submission
    case MustSubmit =>
    case Published(r) => assert Sends(m, t.id, r);
    case Processed(r) => assert Judges(m, t.id, r, now.selector.value);
    case Finalized(r) => assert CallsFinal(m, t.id, r, now.selector.value);
  }

  /** What a step tells the outside is explained by the status it was made in. */
  lemma EffectWhy(g: seq<Moment>, t: Task, a: Answer)
    requires Accepts(t, a) && StatusWhy(g, t.id, t.status)
    ensures LogWhy(g, Noted(t.id, Step(t, a).1))
    ensures Step(t, a).1.SaveState? ==> Step(t, a).1.status == t.status
  {
  }

  lemma OnDiskWhy(g: seq<Moment>, d: Disk, id: BlobId, e: Effect)
    requires DiskWhy(g, d) && (e.SaveState? ==> StatusWhy(g, id, e.status))
    ensures DiskWhy(g, OnDisk(d, id, e))
  {
  }

  lemma SteppedProcWhy(g: seq<Moment>, p: Proc, tid: TaskId, t': Task, e: Effect)
    requires ProcWhy(g, p) && tid in p.tasks && TaskWhy(g, t')
    ensures ProcWhy(g, OnProc(p.(tasks := p.tasks[tid := t']), e))
  {
    var p' := OnProc(p.(tasks := p.tasks[tid := t']), e);
    forall q | Requested(p', q) ensures RequestWhy(g, q) {
      assert Requested(p, q);
    }
  }

  lemma RunWhy(h: seq<Moment>, s: Sys, tid: TaskId, a: Answer)
    requires Enabled(s, Run(tid, a)) && Why(h, s)
    ensures Why(h + [Moment(s, Run(tid, a))], Apply(s, Run(tid, a)))
  {
    var m, t := Moment(s, Run(tid, a)), s.proc.tasks[tid];
    var g := h + [m];
    var (t', e) := Step(t, a);
    WhyLater(h, m, s);
    AnswerWhy(h, s, tid, a);
    StatusLater(h, m, t.id, t.status);
    EffectWhy(g, t, a);
    OnDiskWhy(g, s.disk, t.id, e);
    SteppedProcWhy(g, s.proc, tid, t', e);
    SameBlob(t, a);
    LogInParts(g, s.log, Noted(t.id, e));
  }

  lemma LogInParts(g: seq<Moment>, a: seq<Event>, b: seq<Event>)
    requires LogWhy(g, a) && LogWhy(g, b)
    ensures LogWhy(g, a + b)
  {
  }

  lemma StepWhy(h: seq<Moment>, s: Sys, a: Action)
    requires Enabled(s, a) && Why(h, s)
    ensures Why(h + [Moment(s, a)], Apply(s, a))
  {
    match a
    case Start(completed, counter) => StartWhy(h, s, completed, counter);
    case Crash => WhyLater(h, Moment(s, a), s);
    case Run(tid, answer) => RunWhy(h, s, tid, answer);
    case Lock(pushOk) => LockWhy(h, s, pushOk);
    case _ => ControlWhy(h, s, a);
  }

  lemma {:induction false} RunsWhy(h: seq<Moment>, s: Sys, acts: seq<Action>)
    requires ValidRun(s, acts) && Why(h, s)
    ensures Why(h + History(s, acts), Exec(s, acts))
    decreases |acts|
  {
    if acts == [] {
      assert h + [] == h;
    } else {
      var m := Moment(s, acts[0]);
      StepWhy(h, s, acts[0]);
      RunsWhy(h + [m], Apply(s, acts[0]), acts[1..]);
      assert (h + [m]) + History(Apply(s, acts[0]), acts[1..]) == h + History(s, acts);
    }
  }

  lemma FromTheBeginning(s0: Sys, acts: seq<Action>)
    requires Init(s0) && ValidRun(s0, acts)
    ensures Why(History(s0, acts), Exec(s0, acts))
  {
    RunsWhy([], s0, acts);
    assert [] + History(s0, acts) == History(s0, acts);
  }

  // ------------------------------------------------------------------------------ theorems

  /** What is pushed, stored or worked on under an id is what a caller handed in under that id. */
  lemma DataComesFromCallers(s0: Sys, acts: seq<Action>)
    requires Init(s0) && ValidRun(s0, acts)
    ensures var s, h := Exec(s0, acts), History(s0, acts);
            && (forall e :: e in s.log && e.Pushed? ==> HandedIn(h, e.id, e.blob))
            && (forall id :: id in s.disk.blobs ==> HandedIn(h, id, s.disk.blobs[id]))
            && (s.up ==> forall tid :: tid in s.proc.tasks ==>
                  HandedIn(h, s.proc.tasks[tid].id, s.proc.tasks[tid].blob))
  {
    FromTheBeginning(s0, acts);
    var s, h := Exec(s0, acts), History(s0, acts);
    forall e | e in s.log && e.Pushed? ensures HandedIn(h, e.id, e.blob) {
      assert EventWhy(h, e);
    }
    if s.up {
      forall tid | tid in s.proc.tasks ensures HandedIn(h, s.proc.tasks[tid].id, s.proc.tasks[tid].blob) {
        assert TaskWhy(h, s.proc.tasks[tid]);
      }
    }
  }

  /** Every publication hook is for a receipt that the DA layer gave for a sending of that blob. */
  lemma HooksAreForReceipts(s0: Sys, acts: seq<Action>, id: BlobId, r: Receipt)
    requires Init(s0) && ValidRun(s0, acts) && OnPublished(id, r) in Exec(s0, acts).log
    ensures Sent(History(s0, acts), id, r)
  {
    FromTheBeginning(s0, acts);
    assert EventWhy(History(s0, acts), OnPublished(id, r));
  }

  /**
   The finalization hook runs only for blobs that the ledger called final, with that very verdict,
   to a task that had seen them processed under that receipt.
   */
  lemma FinalizedWasCalledFinal(s0: Sys, acts: seq<Action>, id: BlobId, r: Receipt, v: SelectorStatus)
    requires Init(s0) && ValidRun(s0, acts) && OnFinalized(id, r, v) in Exec(s0, acts).log
    ensures CalledFinal(History(s0, acts), id, r, v)
  {
    FromTheBeginning(s0, acts);
    assert EventWhy(History(s0, acts), OnFinalized(id, r, v));
  }

  /** Every status in the database goes back to the answers that lead to it. */
  lemma SavedStatusHasItsReason(s0: Sys, acts: seq<Action>, id: BlobId)
    requires Init(s0) && ValidRun(s0, acts) && id in Exec(s0, acts).disk.infos
    ensures StatusWhy(History(s0, acts), id, Exec(s0, acts).disk.infos[id])
  {
    FromTheBeginning(s0, acts);
  }
}
