/**
 The blob sender as a whole: the two database tables, the tasks, the in-flight
 map, the submission counter, a publish call that may be half-way through its
 queue, crashes and restarts.  A run is any sequence of enabled actions.
 */
module BlobSenderSystem {
  import opened Wrappers
  import opened BlobTask

  type TaskId = nat

  datatype Request = Request(blob: BlobToSend, id: BlobId, status: ExecutionStatus)

  /** What an outside observer (the disk, the hooks) has seen so far. */
  datatype Event =
    | Pushed(id: BlobId, blob: BlobToSend)
    | OnPublished(id: BlobId, receipt: Receipt)
    | OnFinalized(id: BlobId, receipt: Receipt, verdict: SelectorStatus)

  datatype Disk = Disk(blobs: map<BlobId, BlobToSend>, infos: map<BlobId, ExecutionStatus>)

  /** The main task: on shutdown it takes the in-flight map and keeps it locked until it has joined the tasks in it. */
  datatype MainTask = Ticking | Joining(taken: set<TaskId>) | Over

  /** The memory of the running process. */
  datatype Proc = Proc(
    afterRestart: Option<seq<Request>>,
    queue: seq<Request>,       // what the publish call in progress still has to submit
    checked: bool,             // its head has passed the shutdown check, not yet the lock
    tasks: map<TaskId, Task>,
    inFlight: map<BlobId, TaskId>,
    nextTask: TaskId,
    counter: int,
    counterAtStart: int,
    shutdown: bool,
    main: MainTask,
    dbError: bool)             // a push or a removal failed in this process

  datatype Sys = Sys(
    disk: Disk,
    up: bool,
    proc: Proc,
    log: seq<Event>)

  datatype Action =
    | Start(completed: seq<(BlobToSend, BlobId)>, counter: nat)
    | Crash
    | Publish(blob: BlobToSend, id: BlobId)
    | CheckShutdown
    | Lock(pushOk: bool)
    | Tick
    | Signal
    | TakeMap
    | JoinAll
    | Run(tid: TaskId, answer: Answer)

  ghost predicate Init(s: Sys) {
    s.disk == Disk(map[], map[]) && !s.up && s.log == []
  }

  /** `get_all`: every blob of the table, with its saved state or a fresh one. */
  ghost function GetAll(d: Disk): seq<Request> {
    Requests(Ascending(d.blobs.Keys), d)
  }

  function Requests(ids: seq<BlobId>, d: Disk): seq<Request>
    requires forall id :: id in ids ==> id in d.blobs
  {
    seq(|ids|, i requires 0 <= i < |ids| =>
      Request(d.blobs[ids[i]], ids[i], if ids[i] in d.infos then d.infos[ids[i]] else FRESH))
  }

  /** The ids in the order of the table's iterator. */
  ghost function Ascending(ids: set<BlobId>): (r: seq<BlobId>)
    ensures forall id :: id in r <==> id in ids
  {
    if ids == {} then [] else [Least(ids)] + Ascending(ids - {Least(ids)})
  }

  lemma {:induction false} AscendingIsSorted(ids: set<BlobId>, i: nat, j: nat)
    requires i < j < |Ascending(ids)|
    ensures Ascending(ids)[i] < Ascending(ids)[j]
  {
    var rest := ids - {Least(ids)};
    assert Ascending(ids)[j] == Ascending(rest)[j - 1];
    assert Ascending(rest)[j - 1] in rest;
    if i > 0 {
      assert Ascending(ids)[i] == Ascending(rest)[i - 1];
      AscendingIsSorted(rest, i - 1, j - 1);
    }
  }

  ghost function Least(ids: set<BlobId>): (m: BlobId)
    requires ids != {}
    ensures m in ids && forall x :: x in ids ==> m <= x
  {
    var x :| x in ids;
    if ids == {x} then x
    else
      var m := Least(ids - {x});
      assert forall y :: y in ids ==> y == x || y in ids - {x};
      if m <= x then m else x
  }

  function FreshRequests(completed: seq<(BlobToSend, BlobId)>): seq<Request> {
    seq(|completed|, i requires 0 <= i < |completed| => Request(completed[i].0, completed[i].1, FRESH))
  }

  predicate Enabled(s: Sys, a: Action) {
    match a
    case Start(_, _) => !s.up
    case Crash => s.up
    case Publish(_, _) => s.up && s.proc.queue == []
    case CheckShutdown => s.up && s.proc.queue != [] && !s.proc.checked
    case Lock(_) => s.up && s.proc.queue != [] && s.proc.checked && !s.proc.main.Joining?
    case Tick => s.up && s.proc.main.Ticking?
    case Signal => s.up
    case TakeMap => s.up && s.proc.shutdown && s.proc.main.Ticking?
    case JoinAll =>
      && s.up && s.proc.main.Joining?
      && forall tid :: tid in s.proc.main.taken && tid in s.proc.tasks ==> !s.proc.tasks[tid].Unfinished()
    case Run(tid, answer) =>
      s.up && tid in s.proc.tasks && Accepts(s.proc.tasks[tid], answer) && (answer == Cancel ==> s.proc.shutdown)
  }

  ghost function Apply(s: Sys, a: Action): Sys
    requires Enabled(s, a)
  {
    match a
    case Start(completed, counter) =>
      s.(up := true, proc := Boot(GetAll(s.disk) + FreshRequests(completed), counter))
    case Crash => s.(up := false)
    case Run(tid, answer) =>
      var (t, e) := Step(s.proc.tasks[tid], answer);
      Perform(s.(proc := s.proc.(tasks := s.proc.tasks[tid := t])), t.id, e)
    case Lock(pushOk) =>
      if s.proc.queue[0].id !in s.proc.inFlight && pushOk then Submit(s)
      else s.(proc := TurnAway(s.proc))
    case _ => s.(proc := Control(s.proc, a))
  }

  function Boot(requests: seq<Request>, counter: nat): Proc {
    Proc(Some(requests), [], false, map[], map[], 0, counter, counter, false, Ticking, false)
  }

  /** The actions that touch neither the disk nor a task. */
  function Control(p: Proc, a: Action): Proc
    requires a.Publish? || a.CheckShutdown? || a.Tick? || a.Signal? || a.TakeMap? || a.JoinAll?
    requires a.CheckShutdown? ==> p.queue != []
  {
    match a
    case Publish(blob, id) =>
      p.(queue := (if p.afterRestart.Some? then p.afterRestart.value else []) + [Request(blob, id, FRESH)],
         afterRestart := None, checked := false)
    case CheckShutdown =>
      if p.shutdown then p.(queue := p.queue[1..]) else p.(checked := true)
    case Tick => p.(inFlight := Retain(p.inFlight, p.tasks))
    case Signal => p.(shutdown := true)
    case TakeMap => p.(inFlight := map[], main := Joining(p.inFlight.Values))
    case JoinAll => p.(main := Over)
  }

  /** Under the lock: the blob is already in flight, or else the push has failed. */
  function TurnAway(p: Proc): Proc
    requires p.queue != []
  {
    if p.queue[0].id in p.inFlight then p.(queue := p.queue[1..], checked := false)
    else p.(queue := [], checked := false, dbError := true)
  }

  /** Under the lock: the blob is not in flight and the push succeeds. */
  function Submit(s: Sys): Sys
    requires s.proc.queue != []
  {
    var r := s.proc.queue[0];
    s.(disk := s.disk.(blobs := s.disk.blobs[r.id := r.blob]),
       proc := Admit(s.proc),
       log := s.log + [Pushed(r.id, r.blob)])
  }

  function Admit(p: Proc): Proc
    requires p.queue != []
  {
    var r := p.queue[0];
    var tasks := p.tasks[p.nextTask := Spawn(r.id, r.blob, r.status)];
    p.(tasks := tasks, inFlight := Retain(p.inFlight[r.id := p.nextTask], tasks),
       nextTask := p.nextTask + 1, counter := p.counter + 1,
       queue := p.queue[1..], checked := false)
  }

  /** `retain(|_, b| !b.handle.is_finished())` */
  function Retain(inFlight: map<BlobId, TaskId>, tasks: map<TaskId, Task>): map<BlobId, TaskId> {
    map id | id in inFlight && inFlight[id] in tasks && tasks[inFlight[id]].Unfinished() :: inFlight[id]
  }

  /** What a task's effect does to the tables, to the hooks' history and to the process. */
  function OnDisk(d: Disk, id: BlobId, e: Effect): Disk {
    match e
    case SaveState(status) => d.(infos := d.infos[id := status])
    case RemoveBlob => Disk(d.blobs - {id}, d.infos - {id})
    case _ => d
  }

  function Noted(id: BlobId, e: Effect): seq<Event> {
    match e
    case CallPublished(r) => [OnPublished(id, r)]
    case CallFinalized(r, v) => [OnFinalized(id, r, v)]
    case _ => []
  }

  function OnProc(p: Proc, e: Effect): Proc {
    match e
    case RemoveRefused => p.(dbError := true)
    case SignalShutdown => p.(shutdown := true)
    case DecrementCounter => p.(counter := p.counter - 1)
    case _ => p
  }

  function Perform(s: Sys, id: BlobId, e: Effect): Sys {
    s.(disk := OnDisk(s.disk, id, e), log := s.log + Noted(id, e), proc := OnProc(s.proc, e))
  }

  ghost predicate ValidRun(s: Sys, acts: seq<Action>)
    decreases |acts|
  {
    acts == [] || (Enabled(s, acts[0]) && ValidRun(Apply(s, acts[0]), acts[1..]))
  }

  ghost function Exec(s: Sys, acts: seq<Action>): Sys
    requires ValidRun(s, acts)
    decreases |acts|
  {
    if acts == [] then s else Exec(Apply(s, acts[0]), acts[1..])
  }
}
