/** The promises of the blob sender, over every run with any crashes and restarts. */
module BlobSenderTheorems {
  import opened Wrappers
  import opened BlobTask
  import opened BlobSenderSystem
  import opened BlobSenderProofs

  ghost predicate Inv(s: Sys) {
    StatusesOk(s) && TasksOk(s) && TablesOk(s) && NothingLost(s) && Covered(s)
  }

  lemma StepKeepsInv(s: Sys, a: Action)
    requires Inv(s) && Enabled(s, a)
    ensures Inv(Apply(s, a))
  {
    StepKeepsStatuses(s, a);
    StepKeepsTasks(s, a);
    StepKeepsTables(s, a);
    StepLosesNothing(s, a);
    StepKeepsCovered(s, a);
  }

  lemma {:induction false} RunsKeepInv(s: Sys, acts: seq<Action>)
    requires Inv(s) && ValidRun(s, acts)
    ensures Inv(Exec(s, acts))
    decreases |acts|
  {
    if acts != [] {
      StepKeepsInv(s, acts[0]);
      RunsKeepInv(Apply(s, acts[0]), acts[1..]);
    }
  }

  lemma Reachable(s0: Sys, acts: seq<Action>)
    requires Init(s0) && ValidRun(s0, acts)
    ensures Inv(Exec(s0, acts))
  {
    RunsKeepInv(s0, acts);
  }

  /** Every blob ever pushed is still in the table, or its finalization hook has run. */
  lemma NoBlobIsLost(s0: Sys, acts: seq<Action>, i: nat)
    requires Init(s0) && ValidRun(s0, acts)
    requires i < |Exec(s0, acts).log| && Exec(s0, acts).log[i].Pushed?
    ensures var s := Exec(s0, acts);
            s.log[i].id in s.disk.blobs || FinalizationSeen(s.log, s.log[i].id)
  {
    Reachable(s0, acts);
  }

  /** A push that no finalization has followed is in the table with its own data, and every info has its blob. */
  lemma UnfinalizedPushIsStored(s0: Sys, acts: seq<Action>, id: BlobId)
    requires Init(s0) && ValidRun(s0, acts)
    ensures var s := Exec(s0, acts);
            Pending(s.log, id).Some? ==> id in s.disk.blobs && s.disk.blobs[id] == Pending(s.log, id).value
    ensures Exec(s0, acts).disk.infos.Keys <= Exec(s0, acts).disk.blobs.Keys
  {
    Reachable(s0, acts);
  }

  /**
   on_finalized_blob(id, receipt) always comes after on_published_blob(id, receipt)
   with that very receipt, and only under a verdict that settles the blob.
   */
  lemma FinalizedAfterPublished(s0: Sys, acts: seq<Action>, i: nat)
    requires Init(s0) && ValidRun(s0, acts)
    requires i < |Exec(s0, acts).log| && Exec(s0, acts).log[i].OnFinalized?
    ensures var log := Exec(s0, acts).log;
            Settles(log[i].verdict) && exists j :: 0 <= j < i && log[j] == OnPublished(log[i].id, log[i].receipt)
  {
    Reachable(s0, acts);
    var log := Exec(s0, acts).log;
    assert Justified(log, i);
    var j :| 0 <= j < i && log[..i][j] == OnPublished(log[i].id, log[i].receipt);
    assert log[j] == log[..i][j];
  }

  /** The database never holds `Finalized`, and no task reaches the `unreachable!` arm. */
  lemma FinalizedIsNeverStored(s0: Sys, acts: seq<Action>)
    requires Init(s0) && ValidRun(s0, acts)
    ensures var s := Exec(s0, acts);
            && (forall id :: id in s.disk.infos ==> !s.disk.infos[id].submission.Finalized?)
            && (s.up ==> forall tid :: tid in s.proc.tasks ==>
                  && s.proc.tasks[tid].pc != Panicked
                  && (s.proc.tasks[tid].status.submission.Finalized? ==> s.proc.tasks[tid].status.selector.Some?))
  {
    Reachable(s0, acts);
  }

  /** Two tasks that are not finished are never for the same blob, also while the node shuts down. */
  lemma AtMostOneLiveTask(s0: Sys, acts: seq<Action>, t: TaskId, u: TaskId)
    requires Init(s0) && ValidRun(s0, acts)
    requires var s := Exec(s0, acts);
             && s.up && t in s.proc.tasks && u in s.proc.tasks
             && s.proc.tasks[t].Unfinished() && s.proc.tasks[u].Unfinished()
             && s.proc.tasks[t].id == s.proc.tasks[u].id
    ensures t == u
  {
    Reachable(s0, acts);
  }

  /** When the main task gives the lock back after a shutdown, no task is left at work. */
  lemma JoinLeavesNoTask(s0: Sys, acts: seq<Action>)
    requires Init(s0) && ValidRun(s0, acts) && Enabled(Exec(s0, acts), JoinAll)
    ensures var p := Exec(s0, acts).proc;
            UnfinishedTasks(p.tasks) == {} && p.counter == p.counterAtStart
  {
    Reachable(s0, acts);
    var p := Exec(s0, acts).proc;
    forall tid | tid in p.tasks ensures !p.tasks[tid].Unfinished() {
      assert p.tasks[tid].Unfinished() ==> Handled(p, tid);
    }
  }

  /** The counter is its initial value plus the number of unfinished tasks, so it cannot underflow. */
  lemma CounterCountsTasks(s0: Sys, acts: seq<Action>)
    requires Init(s0) && ValidRun(s0, acts)
    ensures var s := Exec(s0, acts);
            s.up ==> s.proc.counter == s.proc.counterAtStart + |UnfinishedTasks(s.proc.tasks)| >= s.proc.counterAtStart
  {
    Reachable(s0, acts);
  }

  /** Once a publish call has run to its end after a restart, every blob of the table has a live task. */
  lemma PublishResurrectsEveryBlob(s0: Sys, acts: seq<Action>, id: BlobId)
    requires Init(s0) && ValidRun(s0, acts)
    requires var s := Exec(s0, acts);
             && s.up && !s.proc.shutdown && !s.proc.dbError
             && s.proc.afterRestart.None? && s.proc.queue == [] && id in s.disk.blobs
    ensures var p := Exec(s0, acts).proc;
            exists tid :: tid in p.tasks && p.tasks[tid].Active() && p.tasks[tid].id == id
  {
    Reachable(s0, acts);
    var p := Exec(s0, acts).proc;
    assert HasLiveTask(p, id);
    assert p.tasks[p.inFlight[id]].id == id;
  }

  // ------------------------------------------------------------------------- runs

  lemma {:induction false} RunsConcatenate(s: Sys, a: seq<Action>, b: seq<Action>)
    requires ValidRun(s, a) && ValidRun(Exec(s, a), b)
    ensures ValidRun(s, a + b) && Exec(s, a + b) == Exec(Exec(s, a), b)
    decreases |a|
  {
    if a == [] {
      assert a + b == b;
    } else {
      assert (a + b)[1..] == a[1..] + b;
      RunsConcatenate(Apply(s, a[0]), a[1..], b);
    }
  }

  lemma {:induction false} Trace(s: Sys, acts: seq<Action>, states: seq<Sys>)
    requires |states| == |acts| + 1 && states[0] == s
    requires forall i :: 0 <= i < |acts| ==> Enabled(states[i], acts[i]) && states[i + 1] == Apply(states[i], acts[i])
    ensures ValidRun(s, acts) && Exec(s, acts) == states[|acts|]
    decreases |acts|
  {
    if acts != [] {
      assert states[1] == Apply(s, acts[0]);
      Trace(states[1], acts[1..], states[1..]);
    }
  }
}
