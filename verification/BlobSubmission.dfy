/** `manage_blob_submission_inside_task`, with its nested loops. */
module BlobSubmission {
  import opened Wrappers
  import opened BlobTask
  import opened BlobSenderSystem
  import opened BlobSenderDb
  import opened BlobRetries

  /** What a task shares with the rest of the node. */
  datatype World = World(disk: Disk, hooks: seq<Event>, shutdown: bool)

  function Touch(w: World, id: BlobId, e: Effect): World {
    World(OnDisk(w.disk, id, e), w.hooks + Noted(id, e), w.shutdown || e.SignalShutdown?)
  }

  /** The world after a task has gone through `answers`. */
  function WorldAfter(w: World, t: Task, answers: seq<Answer>): World
    requires TaskRun(t, answers)
    decreases |answers|
  {
    if answers == [] then w
    else
      var (t', e) := Step(t, answers[0]);
      WorldAfter(Touch(w, t.id, e), t', answers[1..])
  }

  /**
   The task `t` in the world `w` still has the answers from `i` on ahead of it, and
   going through them leads to the task `endTask` in the world `endWorld`.
   */
  ghost predicate Ahead(w: World, t: Task, answers: seq<Answer>, i: nat, endTask: Task, endWorld: World) {
    && i <= |answers| && Leave !in answers && TaskRun(t, answers[i..])
    && After(t, answers[i..]) == endTask && WorldAfter(w, t, answers[i..]) == endWorld
  }

  lemma Advance(w: World, t: Task, answers: seq<Answer>, i: nat, endTask: Task, endWorld: World)
    requires Ahead(w, t, answers, i, endTask, endWorld) && i < |answers|
    ensures Accepts(t, answers[i]) && answers[i] != Leave
    ensures var (t', e) := Step(t, answers[i]); Ahead(Touch(w, t.id, e), t', answers, i + 1, endTask, endWorld)
  {
    assert answers[i..][0] == answers[i] && answers[i..][1..] == answers[i + 1..];
  }

  /** A poll touches nothing but the shutdown signal. */
  lemma PollAdvances(w: World, t: Task, answers: seq<Answer>, i: nat, endTask: Task, endWorld: World)
    requires Ahead(w, t, answers, i, endTask, endWorld) && i < |answers| && t.pc == Poll
    ensures Accepts(t, answers[i])
    ensures var (t', e) := Step(t, answers[i]);
            Ahead(w.(shutdown := w.shutdown || e.SignalShutdown?), t', answers, i + 1, endTask, endWorld)
  {
    Advance(w, t, answers, i, endTask, endWorld);
    assert w.hooks + [] == w.hooks;
  }

  predicate HasStopped(t: Task) { t.pc == Exiting || t.pc == Panicked }

  /** A task that has stopped accepts nothing but the wrapper's last step. */
  lemma Stopped(w: World, t: Task, answers: seq<Answer>, i: nat, endTask: Task, endWorld: World)
    requires Ahead(w, t, answers, i, endTask, endWorld) && (HasStopped(t) || i == |answers|)
    ensures t == endTask && w == endWorld
  {
    if i < |answers| {
      Advance(w, t, answers, i, endTask, endWorld);
      assert false;
    }
  }

  /** The variables of the loop are those of the task. */
  ghost predicate Holds(t: Task, id: BlobId, status: ExecutionStatus, retries: nat) {
    t.id == id && t.status == status && t.retries == retries
  }

  class Submission {
    const db: Db
    var hooks: seq<Event>
    var shutdown: bool

    constructor (db: Db)
      ensures this.db == db && hooks == [] && !shutdown
    {
      this.db, hooks, shutdown := db, [], false;
    }

    function View(): World
      reads this, db
    {
      World(db.View(), hooks, shutdown)
    }

    /** Saving the status at the top of an arm; a failure shuts the node down. */
    method SaveBlobState(id: BlobId, status: ExecutionStatus, a: Answer) returns (ok: bool)
      modifies this`shutdown, db
      ensures ok == (a == SaveOk)
      ensures View() == Touch(old(View()), id, if ok then SaveState(status) else SignalShutdown)
      ensures db.infos == (if ok then old(db.infos)[id := status] else old(db.infos)) && db.blobs == old(db.blobs)
      ensures hooks == old(hooks) && shutdown == (old(shutdown) || !ok)
    {
      ok := a == SaveOk;
      if ok {
        db.SetState(id, status);
      } else {
        shutdown := true;
      }
      assert hooks + [] == hooks;
    }

    method MustSubmitArm(id: BlobId, status0: ExecutionStatus, retries0: nat, answers: seq<Answer>, start: nat,
                         ghost t0: Task, ghost endTask: Task, ghost endWorld: World)
      returns (status: ExecutionStatus, retries: nat, i: nat, returned: bool, ghost t: Task)
      requires Ahead(View(), t0, answers, start, endTask, endWorld) && start < |answers|
      requires Holds(t0, id, status0, retries0) && t0.pc == Enter && status0.submission.MustSubmit?
      modifies this, db
      ensures Ahead(View(), t, answers, i, endTask, endWorld) && start < i
      ensures Holds(t, id, status, retries) && (returned <==> HasStopped(t)) && t.pc != Panicked
      ensures returned || t.pc == Enter || i == |answers|
    {
      status, retries, i, returned, t := status0, retries0, start, false, t0;
      assert hooks + [] == hooks;
      Advance(View(), t, answers, i, endTask, endWorld);
      t := Step(t, answers[i]).0;
      if answers[i] == Cancel { i, returned := i + 1, true; return; }
      var saved := SaveBlobState(id, status, answers[i]);
      i := i + 1;
      if !saved { returned := true; return; }
      if i == |answers| { return; }
      status, retries, returned, t := SendBlob(id, status, retries, answers, i, t, endTask, endWorld);
      i := i + 1;
    }

    /** Waiting for the receipt of the DA layer; a failure shuts the node down. */
    method SendBlob(id: BlobId, status0: ExecutionStatus, retries0: nat, answers: seq<Answer>, i: nat,
                    ghost t0: Task, ghost endTask: Task, ghost endWorld: World)
      returns (status: ExecutionStatus, retries: nat, returned: bool, ghost t: Task)
      requires Ahead(View(), t0, answers, i, endTask, endWorld) && i < |answers|
      requires Holds(t0, id, status0, retries0) && t0.pc == Send
      modifies this`shutdown
      ensures Ahead(View(), t, answers, i + 1, endTask, endWorld)
      ensures Holds(t, id, status, retries) && (returned <==> HasStopped(t)) && (returned || t.pc == Enter)
      ensures t.pc != Panicked
    {
      status, retries, returned := status0, retries0, false;
      assert hooks + [] == hooks;
      Advance(View(), t0, answers, i, endTask, endWorld);
      t := Step(t0, answers[i]).0;
      if answers[i] == Cancel { returned := true; return; }
      if !answers[i].SendOk? {
        shutdown, returned := true, true;
        return;
      }
      status := ExecutionStatus(Published(answers[i].receipt), None);
      retries := (retries + 1) % 256;
    }

    method PublishedArm(id: BlobId, status0: ExecutionStatus, retries: nat, answers: seq<Answer>, start: nat,
                        ghost t0: Task, ghost endTask: Task, ghost endWorld: World)
      returns (status: ExecutionStatus, i: nat, returned: bool, ghost t: Task)
      requires Ahead(View(), t0, answers, start, endTask, endWorld) && start < |answers|
      requires Holds(t0, id, status0, retries) && t0.pc == Enter && status0.submission.Published?
      modifies this, db
      ensures Ahead(View(), t, answers, i, endTask, endWorld) && start < i
      ensures Holds(t, id, status, retries) && (returned <==> HasStopped(t)) && t.pc != Panicked
      ensures returned || t.pc == Enter || i == |answers|
    {
      status, i, returned, t := status0, start, false, t0;
      assert hooks + [] == hooks;
      Advance(View(), t, answers, i, endTask, endWorld);
      t := Step(t, answers[i]).0;
      if answers[i] == Cancel { i, returned := i + 1, true; return; }
      var saved := SaveBlobState(id, status, answers[i]);
      i := i + 1;
      if !saved { returned := true; return; }
      if i == |answers| { return; }
      Advance(View(), t, answers, i, endTask, endWorld);
      t := Step(t, answers[i]).0;
      if answers[i] == Cancel { i, returned := i + 1, true; return; }
      hooks := hooks + [OnPublished(id, status.submission.receipt)];
      i := i + 1;
      status, i, returned, t := PollPublished(id, status, retries, answers, i, t, endTask, endWorld);
    }

    /** Waiting for the ledger to know the published blob, or for the timeout. */
    method PollPublished(id: BlobId, status0: ExecutionStatus, retries: nat, answers: seq<Answer>, start: nat,
                         ghost t0: Task, ghost endTask: Task, ghost endWorld: World)
      returns (status: ExecutionStatus, i: nat, returned: bool, ghost t: Task)
      requires Ahead(View(), t0, answers, start, endTask, endWorld)
      requires Holds(t0, id, status0, retries) && t0.pc == Poll && status0.submission.Published?
      modifies this`shutdown
      ensures Ahead(View(), t, answers, i, endTask, endWorld) && start <= i
      ensures Holds(t, id, status, retries) && (returned <==> HasStopped(t)) && t.pc != Panicked
      ensures returned || t.pc == Enter || i == |answers|
    {
      status, i, returned, t := status0, start, false, t0;
      var receipt := status.submission.receipt;
      while i < |answers|
        invariant start <= i <= |answers| && !returned
        invariant Ahead(View(), t, answers, i, endTask, endWorld)
        invariant t.pc == Poll && Holds(t, id, status, retries) && status == status0
      {
        PollAdvances(View(), t, answers, i, endTask, endWorld);
        t := Step(t, answers[i]).0;
        var a := answers[i];
        i := i + 1;
        if a == Cancel { returned := true; return; }
        if a == TimedOut {
          if retries >= MAX_NB_OF_BLOB_SUBMISSION_RETRIES { shutdown, returned := true, true; return; }
          status := FRESH;
          return;
        }
        if a == LedgerError { shutdown, returned := true, true; return; }
        match a.finality {
          case Some((_, verdict)) =>
            // Never straight to Finalized, or its notification would be skipped.
            status := ExecutionStatus(Processed(receipt), Some(verdict));
            return;
          case None =>
        }
      }
    }

    method ProcessedArm(id: BlobId, status0: ExecutionStatus, retries: nat, answers: seq<Answer>, start: nat,
                        ghost t0: Task, ghost endTask: Task, ghost endWorld: World)
      returns (status: ExecutionStatus, i: nat, returned: bool, ghost t: Task)
      requires Ahead(View(), t0, answers, start, endTask, endWorld) && start < |answers|
      requires Holds(t0, id, status0, retries) && t0.pc == Enter && status0.submission.Processed?
      modifies this, db
      ensures Ahead(View(), t, answers, i, endTask, endWorld) && start < i
      ensures Holds(t, id, status, retries) && (returned <==> HasStopped(t)) && t.pc != Panicked
      ensures returned || t.pc == Enter || i == |answers|
    {
      status, i, returned, t := status0, start, false, t0;
      assert hooks + [] == hooks;
      Advance(View(), t, answers, i, endTask, endWorld);
      t := Step(t, answers[i]).0;
      if answers[i] == Cancel { i, returned := i + 1, true; return; }
      var saved := SaveBlobState(id, status, answers[i]);
      i := i + 1;
      if !saved { returned := true; return; }
      status, i, returned, t := PollProcessed(id, status, retries, answers, i, t, endTask, endWorld);
    }

    /** Waiting for the processed blob to be finalized, or to be lost to a re-org. */
    method PollProcessed(id: BlobId, status0: ExecutionStatus, retries: nat, answers: seq<Answer>, start: nat,
                         ghost t0: Task, ghost endTask: Task, ghost endWorld: World)
      returns (status: ExecutionStatus, i: nat, returned: bool, ghost t: Task)
      requires Ahead(View(), t0, answers, start, endTask, endWorld)
      requires Holds(t0, id, status0, retries) && t0.pc == Poll && status0.submission.Processed?
      modifies this`shutdown
      ensures Ahead(View(), t, answers, i, endTask, endWorld) && start <= i
      ensures Holds(t, id, status, retries) && (returned <==> HasStopped(t)) && t.pc != Panicked
      ensures returned || t.pc == Enter || i == |answers|
    {
      status, i, returned, t := status0, start, false, t0;
      var receipt := status.submission.receipt;
      while i < |answers|
        invariant start <= i <= |answers| && !returned
        invariant Ahead(View(), t, answers, i, endTask, endWorld)
        invariant t.pc == Poll && Holds(t, id, status, retries) && status == status0
      {
        PollAdvances(View(), t, answers, i, endTask, endWorld);
        t := Step(t, answers[i]).0;
        var a := answers[i];
        i := i + 1;
        if a == Cancel { returned := true; return; }
        if a == LedgerError { shutdown, returned := true, true; return; }
        match a.finality {
          case Some((false, _)) =>
          case Some((true, verdict)) =>
            status := ExecutionStatus(Finalized(receipt), Some(verdict));
            return;
          case None =>
            // Re-org: the blob has to be submitted again.
            status := FRESH;
            return;
        }
      }
    }

    method FinalizedArm(id: BlobId, status0: ExecutionStatus, retries: nat, answers: seq<Answer>, start: nat,
                        ghost t0: Task, ghost endTask: Task, ghost endWorld: World)
      returns (status: ExecutionStatus, i: nat, returned: bool, ghost t: Task)
      requires Ahead(View(), t0, answers, start, endTask, endWorld) && start < |answers|
      requires Holds(t0, id, status0, retries) && t0.pc == Enter && status0.submission.Finalized?
      modifies this, db
      ensures Ahead(View(), t, answers, i, endTask, endWorld) && start < i
      ensures Holds(t, id, status, retries) && (returned <==> HasStopped(t))
      ensures t.pc == Panicked ==> status.submission.Finalized? && status.selector.None?
      ensures returned || t.pc == Enter || i == |answers|
    {
      status, i, returned, t := status0, start, false, t0;
      assert hooks + [] == hooks;
      Advance(View(), t, answers, i, endTask, endWorld);
      t := Step(t, answers[i]).0;
      i := i + 1;
      if answers[i - 1] == Cancel { returned := true; return; }
      if status.selector == None { returned := true; return; }   // the source panics here
      var verdict := status.selector.value;
      if !Settles(verdict) {
        status := FRESH;
        return;
      }
      // Better to call the hook twice after a crash than not at all: before the removal.
      hooks := hooks + [OnFinalized(id, status.submission.receipt, verdict)];
      if i == |answers| { return; }
      assert hooks + [] == hooks;
      Advance(View(), t, answers, i, endTask, endWorld);
      t := Step(t, answers[i]).0;
      if answers[i] == RemoveOk {
        db.Remove(id);
      }
      i, returned := i + 1, true;
    }

    /**
     Runs the loop on the answers the outside world gives.  When they run out the
     task is suspended at that point; `returned` says that the loop is over.
     */
    method Manage(blob: BlobToSend, id: BlobId, latest: ExecutionStatus, answers: seq<Answer>)
      returns (status: ExecutionStatus, retries: nat, returned: bool)
      requires TaskRun(Spawn(id, blob, latest), answers) && Leave !in answers
      modifies this, db
      ensures View() == WorldAfter(old(View()), Spawn(id, blob, latest), answers)
      ensures var t := After(Spawn(id, blob, latest), answers);
              t.status == status && t.retries == retries && (returned <==> HasStopped(t))
      ensures After(Spawn(id, blob, latest), answers).pc == Panicked ==>
                status.submission.Finalized? && status.selector.None?
    {
      status, retries, returned := latest, 0, false;
      var i := 0;
      ghost var t := Spawn(id, blob, latest);
      ghost var endTask := After(t, answers);
      ghost var endWorld := WorldAfter(View(), t, answers);
      assert answers[0..] == answers;
      while i < |answers| && !returned
        invariant Ahead(View(), t, answers, i, endTask, endWorld)
        invariant Holds(t, id, status, retries) && (returned <==> HasStopped(t))
        invariant t.pc == Panicked ==> status.submission.Finalized? && status.selector.None?
        invariant returned || t.pc == Enter || i == |answers|
        decreases |answers| - i
      {
        match status.submission
        case MustSubmit =>
          status, retries, i, returned, t := MustSubmitArm(id, status, retries, answers, i, t, endTask, endWorld);
        case Published(_) =>
          status, i, returned, t := PublishedArm(id, status, retries, answers, i, t, endTask, endWorld);
        case Processed(_) =>
          status, i, returned, t := ProcessedArm(id, status, retries, answers, i, t, endTask, endWorld);
        case Finalized(_) =>
          status, i, returned, t := FinalizedArm(id, status, retries, answers, i, t, endTask, endWorld);
      }
      Stopped(View(), t, answers, i, endTask, endWorld);
    }
  }
}
