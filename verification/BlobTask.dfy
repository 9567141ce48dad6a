/**
 The life of one blob inside its submission task: the statuses a blob moves
 through and the step-by-step behaviour of the loop that drives it.

 Everything the task cannot decide by itself (the DA layer's receipt, the
 ledger's opinion, the clock, the outcome of a database write, cancellation) is
 an `Answer` handed to the step.  What the task does to the outside world in a
 step is the `Effect` the step returns.
 */
module BlobTask {
  import opened Wrappers
  import opened Bytes

  /** A UUIDv7 chosen by the caller; opaque here. */
  type BlobId = nat

  datatype BlobToSend = Batch(data: seq<byte>) | Proof(data: seq<byte>)

  datatype Receipt = Receipt(blobHash: seq<byte>, daTransactionId: seq<byte>)

  datatype DiscardReason =
    | SequenceNumberTooLow
    | SenderInsufficientStake
    | MaxAllowedUnregisteredBlobs
    | OutOfCapacity
    | InsufficientReservedGas
    | InvalidSerialization
    | EmergencyRegistrationTooLarge

  datatype SelectorStatus = Discarded(reason: DiscardReason) | Accepted

  datatype SubmissionStatus =
    | MustSubmit
    | Published(receipt: Receipt)
    | Processed(receipt: Receipt)
    | Finalized(receipt: Receipt)

  datatype ExecutionStatus =
    ExecutionStatus(submission: SubmissionStatus, selector: Option<SelectorStatus>)

  const FRESH := ExecutionStatus(MustSubmit, None)

  const MAX_NB_OF_BLOB_SUBMISSION_RETRIES := 3

  /** The verdicts under which a finalized blob is done with. */
  predicate Settles(v: SelectorStatus) {
    v == Accepted || v == Discarded(SequenceNumberTooLow)
  }

  /** Where the task stands inside the arm of its current status. */
  datatype Pc =
    | Enter     // top of the loop, about to act on the status
    | Send      // state saved, waiting for the DA layer's receipt
    | Hook      // state saved, about to call on_published_blob
    | Poll      // asking the ledger about the blob
    | Remove    // on_finalized_blob called, about to delete the blob
    | Exiting   // the future is over, the counter not yet decremented
    | Done
    | Panicked  // the `unreachable!` arm

  /**
   `retries` is the `u8` the code counts submissions in.  `submissions` and
   `resubmissions` (re-orgs plus discards) are what actually happened.
   */
  datatype Task = Task(
    id: BlobId,
    blob: BlobToSend,
    status: ExecutionStatus,
    pc: Pc,
    retries: nat,
    submissions: nat,
    resubmissions: nat)
  {
    predicate Unfinished() { pc != Done && pc != Panicked }

    predicate Active() { Unfinished() && pc != Exiting }
  }

  function Spawn(id: BlobId, blob: BlobToSend, status: ExecutionStatus): Task {
    Task(id, blob, status, Enter, 0, 0, 0)
  }

  datatype Answer =
    | Proceed
    | SaveOk
    | SaveFailed
    | SendOk(receipt: Receipt)
    | SendFailed
    | TimedOut
    | LedgerError
    | LedgerSays(finality: Option<(bool, SelectorStatus)>)
    | RemoveOk
    | RemoveFailed
    | Cancel
    | Leave

  datatype Effect =
    | Quiet
    | SaveState(status: ExecutionStatus)
    | CallPublished(receipt: Receipt)
    | CallFinalized(receipt: Receipt, verdict: SelectorStatus)
    | RemoveBlob
    | RemoveRefused
    | SignalShutdown
    | DecrementCounter

  /** Which answers make sense at which point of the task. */
  predicate Accepts(t: Task, a: Answer) {
    match t.pc
    case Enter =>
      a == Cancel ||
      (if t.status.submission.Finalized? then a == Proceed else a == SaveOk || a == SaveFailed)
    case Send => a == Cancel || a.SendOk? || a == SendFailed
    case Hook => t.status.submission.Published? && (a == Cancel || a == Proceed)
    case Poll =>
      (t.status.submission.Published? && (a == Cancel || a == TimedOut || a == LedgerError || a.LedgerSays?)) ||
      (t.status.submission.Processed? && (a == Cancel || a == LedgerError || a.LedgerSays?))
    case Remove => a == Cancel || a == RemoveOk || a == RemoveFailed
    case Exiting => a == Leave
    case Done => false
    case Panicked => false
  }

  /** One step of `manage_blob_submission_inside_task` and of the wrapper around it. */
  function Step(t: Task, a: Answer): (Task, Effect)
    requires Accepts(t, a)
  {
    if a == Cancel then (t.(pc := Exiting), Quiet)
    else match t.pc
      case Enter => Arrive(t, a)
      case Send =>
        if a.SendOk? then
          (t.(status := ExecutionStatus(Published(a.receipt), None), pc := Enter,
              retries := (t.retries + 1) % 256, submissions := t.submissions + 1), Quiet)
        else (t.(pc := Exiting), SignalShutdown)
      case Hook => (t.(pc := Poll), CallPublished(t.status.submission.receipt))
      case Poll => Observe(t, a)
      case Remove => (t.(pc := Exiting), if a == RemoveOk then RemoveBlob else RemoveRefused)
      case Exiting => (t.(pc := Done), DecrementCounter)
  }

  /** Acting on a status on first reaching it. */
  function Arrive(t: Task, a: Answer): (Task, Effect)
    requires t.pc == Enter && Accepts(t, a) && a != Cancel
  {
    match t.status.submission
    case MustSubmit => Save(t, a, Send)
    case Published(_) => Save(t, a, Hook)
    case Processed(_) => Save(t, a, Poll)
    case Finalized(r) =>
      match t.status.selector
      case None => (t.(pc := Panicked), Quiet)
      case Some(v) =>
        if Settles(v) then (t.(pc := Remove), CallFinalized(r, v))
        else (t.(status := FRESH, resubmissions := t.resubmissions + 1), Quiet)
  }

  function Save(t: Task, a: Answer, next: Pc): (Task, Effect) {
    if a == SaveOk then (t.(pc := next), SaveState(t.status))
    else (t.(pc := Exiting), SignalShutdown)
  }

  /** One round of the polling loops of `Published` and `Processed`. */
  function Observe(t: Task, a: Answer): (Task, Effect)
    requires t.pc == Poll && Accepts(t, a) && a != Cancel
  {
    var r := t.status.submission.receipt;
    if a == LedgerError then (t.(pc := Exiting), SignalShutdown)
    else if a == TimedOut then
      if t.retries >= MAX_NB_OF_BLOB_SUBMISSION_RETRIES then (t.(pc := Exiting), SignalShutdown)
      else (t.(status := FRESH, pc := Enter), Quiet)
    else if t.status.submission.Published? then
      match a.finality
      case None => (t, Quiet)
      case Some((_, v)) => (t.(status := ExecutionStatus(Processed(r), Some(v)), pc := Enter), Quiet)
    else
      match a.finality
      case None => (t.(status := FRESH, pc := Enter, resubmissions := t.resubmissions + 1), Quiet)
      case Some((final, v)) =>
        if final then (t.(status := ExecutionStatus(Finalized(r), Some(v)), pc := Enter), Quiet)
        else (t, Quiet)
  }
}
