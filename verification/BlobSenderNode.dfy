/**
 The blob sender object: starting from the database, and a publish call that
 first resubmits everything the previous process left behind.

 Each call is shown to be a run of the system, so everything proved about runs
 holds across it.  The environment does not move during a call here; the system
 model interleaves it freely.
 */
module BlobSenderNode {
  import opened Wrappers
  import opened BlobTask
  import opened BlobSenderSystem
  import opened BlobSenderDb
  import T = BlobSenderTheorems

  /** The main task holds the lock only once a shutdown is signalled, and then the call does not ask for it. */
  predicate LockIsFree(p: Proc) { p.main.Joining? ==> p.shutdown }

  /** One call of `submit_blob_on_da` for the head of the queue. */
  ghost function SubmitCall(s: Sys, pushOk: bool): Sys
    requires Enabled(s, CheckShutdown) && LockIsFree(s.proc)
  {
    var s1 := Apply(s, CheckShutdown);
    if s.proc.shutdown then s1 else Apply(s1, Lock(pushOk))
  }

  ghost function SubmitActions(s: Sys, pushOk: bool): seq<Action> {
    if s.proc.shutdown then [CheckShutdown] else [CheckShutdown, Lock(pushOk)]
  }

  lemma SubmitCallIsARun(s: Sys, pushOk: bool)
    requires Enabled(s, CheckShutdown) && LockIsFree(s.proc)
    ensures ValidRun(s, SubmitActions(s, pushOk)) && Exec(s, SubmitActions(s, pushOk)) == SubmitCall(s, pushOk)
  {
    var s1 := Apply(s, CheckShutdown);
    if s.proc.shutdown {
      T.Trace(s, [CheckShutdown], [s, s1]);
    } else {
      T.Trace(s, [CheckShutdown, Lock(pushOk)], [s, s1, Apply(s1, Lock(pushOk))]);
    }
  }

  ghost predicate OfPublish(acts: seq<Action>) {
    forall i :: 0 <= i < |acts| ==> acts[i].Publish? || acts[i].CheckShutdown? || acts[i].Lock?
  }

  /** `acts`, all of them steps of a publish call, lead from `s0` to `s`. */
  ghost predicate Leads(s0: Sys, acts: seq<Action>, s: Sys) {
    ValidRun(s0, acts) && Exec(s0, acts) == s && OfPublish(acts)
  }

  lemma BeginsPublish(s: Sys, blob: BlobToSend, id: BlobId)
    requires Enabled(s, Publish(blob, id))
    ensures Leads(s, [Publish(blob, id)], Apply(s, Publish(blob, id)))
  {
    T.Trace(s, [Publish(blob, id)], [s, Apply(s, Publish(blob, id))]);
  }

  lemma SubmitsNext(s0: Sys, acts: seq<Action>, s: Sys, pushOk: bool)
    requires Leads(s0, acts, s) && Enabled(s, CheckShutdown) && LockIsFree(s.proc)
    ensures Leads(s0, acts + SubmitActions(s, pushOk), SubmitCall(s, pushOk))
  {
    SubmitCallIsARun(s, pushOk);
    T.RunsConcatenate(s0, acts, SubmitActions(s, pushOk));
  }

  lemma SubmitCallCases(s: Sys, pushOk: bool)
    requires Enabled(s, CheckShutdown) && LockIsFree(s.proc)
    ensures var p := s.proc;
            SubmitCall(s, pushOk) ==
            if p.shutdown || p.queue[0].id in p.inFlight then s.(proc := p.(queue := p.queue[1..]))
            else if pushOk then Submit(s)
            else s.(proc := p.(queue := [], dbError := true))
  {
  }

  /** The rest of a publish call: one `submit_blob_on_da` after the other, until one fails. */
  ghost function Served(s: Sys, pushOk: BlobId -> bool): Sys
    requires s.up && !s.proc.checked && LockIsFree(s.proc)
    decreases |s.proc.queue|
  {
    if s.proc.queue == [] then s
    else
      var ok := pushOk(s.proc.queue[0].id);
      SubmitCallCases(s, ok);
      Served(SubmitCall(s, ok), pushOk)
  }

  lemma {:induction false} ServedIsARun(s0: Sys, before: seq<Action>, s: Sys, pushOk: BlobId -> bool)
    returns (acts: seq<Action>)
    requires Leads(s0, before, s) && s.up && !s.proc.checked && LockIsFree(s.proc)
    ensures Leads(s0, acts, Served(s, pushOk))
    decreases |s.proc.queue|
  {
    if s.proc.queue == [] {
      acts := before;
    } else {
      var ok := pushOk(s.proc.queue[0].id);
      SubmitCallCases(s, ok);
      SubmitsNext(s0, before, s, ok);
      acts := ServedIsARun(s0, before + SubmitActions(s, ok), SubmitCall(s, ok), pushOk);
    }
  }

  /** A publish call is a run of the system, so everything proved about runs holds across it. */
  lemma PublishCallIsARun(s: Sys, blob: BlobToSend, id: BlobId, pushOk: BlobId -> bool) returns (acts: seq<Action>)
    requires Enabled(s, Publish(blob, id)) && LockIsFree(s.proc)
    ensures Leads(s, acts, Served(Apply(s, Publish(blob, id)), pushOk))
  {
    BeginsPublish(s, blob, id);
    acts := ServedIsARun(s, [Publish(blob, id)], Apply(s, Publish(blob, id)), pushOk);
  }

  predicate Asks(requests: seq<Request>, id: BlobId) {
    exists i :: 0 <= i < |requests| && requests[i].id == id
  }

  lemma AsksStill(requests: seq<Request>, i: nat, id: BlobId)
    requires i < |requests| && (Asks(requests[..i], id) || requests[i].id == id)
    ensures Asks(requests[..i + 1], id)
  {
    var j :| 0 <= j <= i && requests[j].id == id;
    assert requests[..i + 1][j].id == id;
  }

  class Sender {
    const db: Db
    var afterRestart: Option<seq<Request>>
    var tasks: map<TaskId, Task>
    var inFlight: map<BlobId, TaskId>
    var nextTask: TaskId
    var counter: int
    var shutdown: bool
    var main: MainTask
    var dbError: bool
    ghost var queue: seq<Request>
    ghost var counterAtStart: int
    ghost var log: seq<Event>

    ghost function Memory(): Proc
      reads this
    {
      Proc(afterRestart, queue, false, tasks, inFlight, nextTask, counter, counterAtStart, shutdown, main, dbError)
    }

    ghost function View(): Sys
      reads this, db
    {
      Sys(db.View(), true, Memory(), log)
    }

    ghost predicate Valid()
      reads this
    {
      main.Joining? ==> shutdown
    }

    constructor (db: Db, completed: seq<(BlobToSend, BlobId)>, counter: nat, ghost before: Sys)
      requires !before.up && before.disk == db.View()
      ensures this.db == db && Valid() && db.View() == old(db.View())
      ensures View() == Apply(before, Start(completed, counter))
      ensures tasks == map[] && inFlight == map[] && this.counter == counter && !shutdown && main.Ticking? && !dbError
      ensures afterRestart.Some? && forall i :: 0 <= i < |completed| ==>
                Request(completed[i].0, completed[i].1, FRESH) in afterRestart.value
    {
      var requests := db.GetAll();
      this.db := db;
      afterRestart := Some(requests + FreshRequests(completed));
      tasks, inFlight, nextTask := map[], map[], 0;
      this.counter, counterAtStart := counter, counter;
      shutdown, main, dbError := false, Ticking, false;
      queue, log := [], before.log;
      forall i | 0 <= i < |completed|
        ensures Request(completed[i].0, completed[i].1, FRESH) in requests + FreshRequests(completed)
      {
        assert (requests + FreshRequests(completed))[|requests| + i] == Request(completed[i].0, completed[i].1, FRESH);
      }
    }

    method SubmitBlobOnDa(blob: BlobToSend, id: BlobId, status: ExecutionStatus, pushOk: bool) returns (ok: bool)
      requires Valid() && queue != [] && queue[0] == Request(blob, id, status)
      modifies this, db
      ensures Valid() && View() == SubmitCall(old(View()), pushOk)
      ensures !ok <==> !old(shutdown) && id !in old(inFlight) && !pushOk
      ensures !ok ==> dbError
      ensures queue == if ok then old(queue)[1..] else []
      ensures afterRestart == old(afterRestart) && shutdown == old(shutdown)
      ensures forall x :: x in inFlight && x != id ==> x in old(inFlight)
      ensures !old(shutdown) && id !in old(inFlight) && pushOk ==>
                && db.blobs == old(db.blobs)[id := blob] && db.infos == old(db.infos)
                && tasks == old(tasks)[old(nextTask) := Task(id, blob, status, Enter, 0, 0, 0)]
                && id in inFlight && inFlight[id] == old(nextTask)
                && counter == old(counter) + 1 && log == old(log) + [Pushed(id, blob)]
      ensures old(shutdown) || id in old(inFlight) || !pushOk ==>
                && db.View() == old(db.View()) && tasks == old(tasks) && inFlight == old(inFlight)
                && counter == old(counter) && log == old(log)
    {
      SubmitCallCases(View(), pushOk);
      ok := true;
      if shutdown {
        queue := queue[1..];
        return;
      }
      if id in inFlight {
        queue := queue[1..];
        return;
      }
      if !pushOk {
        queue, dbError, ok := [], true, false;
        return;
      }
      db.Push(blob, id);
      SpawnTask(blob, id, status);
    }

    /** Count, spawn, list, and drop of finished tasks. */
    method SpawnTask(blob: BlobToSend, id: BlobId, status: ExecutionStatus)
      requires Valid() && queue != [] && queue[0] == Request(blob, id, status)
      modifies this
      ensures Valid() && Memory() == Admit(old(Memory())) && log == old(log) + [Pushed(id, blob)]
      ensures tasks == old(tasks)[old(nextTask) := Task(id, blob, status, Enter, 0, 0, 0)]
      ensures id in inFlight && inFlight[id] == old(nextTask) && nextTask == old(nextTask) + 1
      ensures forall x :: x in inFlight && x != id ==>
                && x in old(inFlight) && inFlight[x] == old(inFlight)[x]
                && inFlight[x] in tasks && tasks[inFlight[x]].Unfinished()
      ensures counter == old(counter) + 1 && shutdown == old(shutdown) && afterRestart == old(afterRestart)
    {
      counter := counter + 1;
      tasks := tasks[nextTask := Spawn(id, blob, status)];
      inFlight := Retain(inFlight[id := nextTask], tasks);
      nextTask := nextTask + 1;
      log, queue := log + [Pushed(id, blob)], queue[1..];
    }

    /** Some of the requests are served: the rest of the call leads to `goal` from here too. */
    ghost predicate Midway(requests: seq<Request>, last: Request, i: nat, ok: bool, pushOk: BlobId -> bool,
                           goal: Sys, known: map<BlobId, TaskId>)
      requires i <= |requests|
      reads this, db
    {
      && Valid() && Served(View(), pushOk) == goal
      && queue == (if ok then requests[i..] + [last] else []) && (!ok ==> dbError)
      && forall x :: x in inFlight && x !in known ==> Asks(requests[..i], x)
    }

    /** Serves the head of the queue. */
    method ServeNext(requests: seq<Request>, ghost last: Request, i: nat, pushOk: BlobId -> bool, ghost goal: Sys,
                     ghost known: map<BlobId, TaskId>)
      returns (ok: bool)
      requires i < |requests| && Midway(requests, last, i, true, pushOk, goal, known)
      modifies this, db
      ensures Midway(requests, last, i + 1, ok, pushOk, goal, known)
      ensures afterRestart == old(afterRestart) && shutdown == old(shutdown)
    {
      var r := requests[i];
      ok := SubmitBlobOnDa(r.blob, r.id, r.status, pushOk(r.id));
      forall x | x in inFlight && x !in known ensures Asks(requests[..i + 1], x) {
        AsksStill(requests, i, x);
      }
    }

    /** Submits one request after the other, in front of one more; stops at the first database error. */
    method SubmitAll(requests: seq<Request>, ghost last: Request, pushOk: BlobId -> bool) returns (ok: bool)
      requires Valid() && queue == requests + [last]
      modifies this, db
      ensures Valid() && Served(View(), pushOk) == old(Served(View(), pushOk))
      ensures queue == if ok then [last] else []
      ensures afterRestart == old(afterRestart) && shutdown == old(shutdown)
      ensures !ok ==> dbError
      ensures forall x :: x in inFlight && x !in old(inFlight) ==> Asks(requests, x)
    {
      ok := true;
      ghost var goal, known := Served(View(), pushOk), inFlight;
      var i := 0;
      while i < |requests| && ok
        invariant i <= |requests| && afterRestart == old(afterRestart) && shutdown == old(shutdown)
        invariant Midway(requests, last, i, ok, pushOk, goal, known)
        decreases |requests| - i
      {
        ok := ServeNext(requests, last, i, pushOk, goal, known);
        i := i + 1;
      }
      forall x | Asks(requests[..i], x) ensures Asks(requests, x) {
        var j :| 0 <= j < i && requests[..i][j].id == x;
        assert requests[j].id == x;
      }
    }

    /** Resubmits what the restart found, then the new blob; stops at the first database error. */
    method PublishBlobInner(blob: BlobToSend, id: BlobId, pushOk: BlobId -> bool) returns (ok: bool)
      requires Valid() && queue == []
      modifies this, db
      ensures Valid() && View() == Served(Apply(old(View()), Publish(blob, id)), pushOk)
      ensures queue == [] && afterRestart.None?
      ensures !ok ==> dbError
      ensures ok && !shutdown && id !in old(inFlight) && !old(Requested(id)) ==>
                && id in db.blobs && db.blobs[id] == blob
                && id in inFlight && inFlight[id] in tasks
                && tasks[inFlight[id]] == Task(id, blob, FRESH, Enter, 0, 0, 0)
    {
      var requests := if afterRestart.Some? then afterRestart.value else [];
      afterRestart := None;
      ghost var last := Request(blob, id, FRESH);
      queue := requests + [last];
      ok := SubmitAll(requests, last, pushOk);
      if !ok { return; }
      ok := SubmitBlobOnDa(blob, id, FRESH, pushOk(id));
    }

    /** The restart left a request for this blob. */
    predicate Requested(id: BlobId)
      reads this
    {
      afterRestart.Some? && Asks(afterRestart.value, id)
    }

    /** The clean-up the main task does on every tick of its metrics interval. */
    method Tick()
      requires Valid() && main.Ticking?
      modifies this`inFlight
      ensures Valid() && View() == Apply(old(View()), Action.Tick)
      ensures forall id :: id in inFlight <==>
                id in old(inFlight) && old(inFlight)[id] in tasks && tasks[old(inFlight)[id]].Unfinished()
    {
      inFlight := Retain(inFlight, tasks);
    }

    /** What the main task does on shutdown: it takes the map and does not let go of the lock. */
    method TakeMap() returns (taken: map<BlobId, TaskId>)
      requires Valid() && shutdown && main.Ticking?
      modifies this`inFlight, this`main
      ensures Valid() && View() == Apply(old(View()), Action.TakeMap)
      ensures taken == old(inFlight) && inFlight == map[] && main == Joining(taken.Values)
    {
      taken := inFlight;
      inFlight, main := map[], Joining(inFlight.Values);
    }

    /** Once every task it took has finished, it lets go of the lock and is over. */
    method JoinAll()
      requires Valid() && Enabled(View(), Action.JoinAll)
      modifies this`main
      ensures Valid() && View() == Apply(old(View()), Action.JoinAll) && main.Over?
    {
      main := Over;
    }
  }
}
