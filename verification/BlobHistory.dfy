/**
 Why a task is where it is: every status goes back to the answer that led to it.
 The laws here speak of answers and of what the task was asked at the time.
 */
module BlobHistory {
  import opened Wrappers
  import opened BlobTask
  import opened BlobRetries

  /** What a step does, answer by answer. */
  lemma Reactions(t: Task, a: Answer)
    requires Accepts(t, a)
    ensures var (t', e) := Step(t, a);
            && t'.id == t.id && t'.blob == t.blob
            && (a == Cancel ==> t' == t.(pc := Exiting) && e == Quiet)
            && (a == Leave ==> t' == t.(pc := Done) && e == DecrementCounter)
            && (a == SaveFailed || a == SendFailed || a == LedgerError ==>
                  t' == t.(pc := Exiting) && e == SignalShutdown)
            && (a == RemoveOk ==> t' == t.(pc := Exiting) && e == RemoveBlob)
            && (a == RemoveFailed ==> t' == t.(pc := Exiting) && e == RemoveRefused)
            && (a == SaveOk ==> t' == t.(pc := t'.pc) && t'.pc == AfterSave(t) && e == SaveState(t.status))
            && (a.SendOk? ==>
                  && t'.status == ExecutionStatus(Published(a.receipt), None) && t'.pc == Enter
                  && t'.submissions == t.submissions + 1 && t'.resubmissions == t.resubmissions && e == Quiet)
  {
  }

  function AfterSave(t: Task): Pc {
    match t.status.submission
    case MustSubmit => Send
    case Published(_) => Hook
    case _ => Poll
  }

  /** The ledger knows the published blob, with whatever finality, or does not know it yet. */
  lemma PublishedHears(t: Task, f: Option<(bool, SelectorStatus)>)
    requires t.pc == Poll && t.status.submission.Published?
    ensures Accepts(t, LedgerSays(f)) && Step(t, LedgerSays(f)).1 == Quiet
    ensures var t', r := Step(t, LedgerSays(f)).0, t.status.submission.receipt;
            match f
            case None => t' == t
            case Some((_, v)) => t' == t.(status := ExecutionStatus(Processed(r), Some(v)), pc := Enter)
  {
  }

  /** Of a processed blob the task waits for finality; if the ledger has lost it, the blob is submitted again. */
  lemma ProcessedHears(t: Task, f: Option<(bool, SelectorStatus)>)
    requires t.pc == Poll && t.status.submission.Processed?
    ensures Accepts(t, LedgerSays(f)) && Step(t, LedgerSays(f)).1 == Quiet
    ensures var t', r := Step(t, LedgerSays(f)).0, t.status.submission.receipt;
            match f
            case None => t' == t.(status := FRESH, pc := Enter, resubmissions := t.resubmissions + 1)
            case Some((false, _)) => t' == t
            case Some((true, v)) => t' == t.(status := ExecutionStatus(Finalized(r), Some(v)), pc := Enter)
  {
  }

  predicate IsSettled(v: SelectorStatus) { v == Accepted || v == Discarded(SequenceNumberTooLow) }

  /** A finalized blob is handed on and removed, or submitted again if it was discarded for another reason. */
  lemma FinalizedActs(t: Task)
    requires t.pc == Enter && t.status.submission.Finalized?
    ensures Accepts(t, Proceed)
    ensures var (t', e) := Step(t, Proceed);
            match t.status.selector
            case None => t' == t.(pc := Panicked) && e == Quiet
            case Some(v) =>
              if IsSettled(v) then t' == t.(pc := Remove) && e == CallFinalized(t.status.submission.receipt, v)
              else t' == t.(status := FRESH, resubmissions := t.resubmissions + 1) && e == Quiet
  {
  }

  lemma HookActs(t: Task)
    requires t.pc == Hook && t.status.submission.Published?
    ensures Accepts(t, Proceed)
    ensures Step(t, Proceed) == (t.(pc := Poll), CallPublished(t.status.submission.receipt))
  {
  }

  // ------------------------------------------------------------------------------- causes

  /** A task at some point of its run, and the answer it got there. */
  datatype Moment = Moment(t: Task, a: Answer)

  function History(t: Task, answers: seq<Answer>): seq<Moment>
    requires TaskRun(t, answers)
    decreases |answers|
  {
    if answers == [] then [] else [Moment(t, answers[0])] + History(Step(t, answers[0]).0, answers[1..])
  }

  predicate Sends(m: Moment, r: Receipt) { m.t.pc == Send && m.a == SendOk(r) }

  predicate Judges(m: Moment, r: Receipt, v: SelectorStatus) {
    m.t.pc == Poll && m.t.status.submission == Published(r) && m.a.LedgerSays? && m.a.finality.Some? &&
    m.a.finality.value.1 == v
  }

  predicate IsFinal(m: Moment, r: Receipt, v: SelectorStatus) {
    m.t.pc == Poll && m.t.status.submission == Processed(r) && m.a == LedgerSays(Some((true, v)))
  }

  /** A timeout with submissions left, a re-org, or a discard that does not settle the blob. */
  predicate Resubmits(m: Moment) {
    || (m.a == TimedOut && m.t.pc == Poll && m.t.status.submission.Published? && m.t.retries < 3)
    || (m.a == LedgerSays(None) && m.t.pc == Poll && m.t.status.submission.Processed?)
    || (m.a == Proceed && m.t.pc == Enter && m.t.status.submission.Finalized? &&
        m.t.status.selector.Some? && !IsSettled(m.t.status.selector.value))
  }

  ghost predicate WasSent(h: seq<Moment>, r: Receipt) { exists i :: 0 <= i < |h| && Sends(h[i], r) }

  ghost predicate WasJudged(h: seq<Moment>, r: Receipt, v: SelectorStatus) {
    exists i :: 0 <= i < |h| && Judges(h[i], r, v)
  }

  ghost predicate WasFinal(h: seq<Moment>, r: Receipt, v: SelectorStatus) {
    exists i :: 0 <= i < |h| && IsFinal(h[i], r, v)
  }

  ghost predicate WasResubmitted(h: seq<Moment>) { exists i :: 0 <= i < |h| && Resubmits(h[i]) }

  /** The status is the one the task began with, or some answer explains it. */
  ghost predicate Explained(st: ExecutionStatus, h: seq<Moment>, now: ExecutionStatus) {
    now == st ||
    match now.submission
    case MustSubmit => now == FRESH && WasResubmitted(h)
    case Published(r) => now.selector == None && WasSent(h, r)
    case Processed(r) => now.selector.Some? && WasJudged(h, r, now.selector.value)
    case Finalized(r) => now.selector.Some? && WasFinal(h, r, now.selector.value)
  }

  lemma StepExplains(st: ExecutionStatus, h: seq<Moment>, t: Task, a: Answer)
    requires Accepts(t, a) && Explained(st, h, t.status)
    ensures Explained(st, h + [Moment(t, a)], Step(t, a).0.status)
  {
    var g, now := h + [Moment(t, a)], Step(t, a).0.status;
    assert g[|h|] == Moment(t, a);
    if now == t.status {
      ExplainedLater(st, h, g, now);
    }
  }

  lemma ExplainedLater(st: ExecutionStatus, h: seq<Moment>, g: seq<Moment>, now: ExecutionStatus)
    requires Explained(st, h, now) && h <= g
    ensures Explained(st, g, now)
  {
    assert forall i :: 0 <= i < |h| ==> g[i] == h[i];
  }

  lemma {:induction false} RunExplains(st: ExecutionStatus, h: seq<Moment>, t: Task, answers: seq<Answer>)
    requires TaskRun(t, answers) && Explained(st, h, t.status)
    ensures Explained(st, h + History(t, answers), After(t, answers).status)
    decreases |answers|
  {
    if answers == [] {
      assert h + [] == h;
    } else {
      var m := Moment(t, answers[0]);
      StepExplains(st, h, t, answers[0]);
      RunExplains(st, h + [m], Step(t, answers[0]).0, answers[1..]);
      assert (h + [m]) + History(Step(t, answers[0]).0, answers[1..]) == h + History(t, answers);
    }
  }

  /**
   Whatever status a task is in, it began with it, or the answer is in its history that leads to it:
   a receipt of the DA layer, a verdict of the ledger, a verdict the ledger calls final, or a reason to
   submit again.
   */
  lemma StatusIsExplained(id: BlobId, blob: BlobToSend, st: ExecutionStatus, answers: seq<Answer>)
    requires TaskRun(Spawn(id, blob, st), answers)
    ensures var t := Spawn(id, blob, st);
            Explained(st, History(t, answers), After(t, answers).status)
  {
    RunExplains(st, [], Spawn(id, blob, st), answers);
    assert [] + History(Spawn(id, blob, st), answers) == History(Spawn(id, blob, st), answers);
  }

  /** A blob counts as finalized only if the ledger has called it final, with that verdict, when it was processed. */
  lemma FinalizedWasFinal(id: BlobId, blob: BlobToSend, st: ExecutionStatus, answers: seq<Answer>)
    requires TaskRun(Spawn(id, blob, st), answers) && !st.submission.Finalized?
    requires After(Spawn(id, blob, st), answers).status.submission.Finalized?
    ensures var t := Spawn(id, blob, st);
            var now, h := After(t, answers).status, History(t, answers);
            now.selector.Some? && WasFinal(h, now.submission.receipt, now.selector.value)
  {
    StatusIsExplained(id, blob, st, answers);
  }

  lemma {:induction false} SendsOnlyFresh(t: Task, answers: seq<Answer>)
    requires TaskRun(t, answers) && (t.pc == Send ==> t.status.submission.MustSubmit?)
    ensures After(t, answers).pc == Send ==> After(t, answers).status.submission.MustSubmit?
    decreases |answers|
  {
    if answers != [] {
      SendsOnlyFresh(Step(t, answers[0]).0, answers[1..]);
    }
  }

  /** A task that resumes a blob as published or processed sends it again only for a reason. */
  lemma NoSendingAgain(id: BlobId, blob: BlobToSend, st: ExecutionStatus, answers: seq<Answer>, r: Receipt)
    requires TaskRun(Spawn(id, blob, st), answers) && !st.submission.MustSubmit?
    requires Accepts(After(Spawn(id, blob, st), answers), SendOk(r))
    ensures WasResubmitted(History(Spawn(id, blob, st), answers))
  {
    StatusIsExplained(id, blob, st, answers);
    SendsOnlyFresh(Spawn(id, blob, st), answers);
  }
}
