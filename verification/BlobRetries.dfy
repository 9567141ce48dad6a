/**
 How often one task submits its blob.

 The code counts submissions in a `u8`.  In a release build that counter wraps
 around, and the bound below holds exactly up to the point where it can.
 */
module BlobRetries {
  import opened Wrappers
  import opened BlobTask

  predicate TaskRun(t: Task, answers: seq<Answer>)
    decreases |answers|
  {
    answers == [] || (Accepts(t, answers[0]) && TaskRun(Step(t, answers[0]).0, answers[1..]))
  }

  function After(t: Task, answers: seq<Answer>): Task
    requires TaskRun(t, answers)
    decreases |answers|
  {
    if answers == [] then t else After(Step(t, answers[0]).0, answers[1..])
  }

  lemma {:induction false} RunsConcatenate(t: Task, a: seq<Answer>, b: seq<Answer>)
    requires TaskRun(t, a) && TaskRun(After(t, a), b)
    ensures TaskRun(t, a + b) && After(t, a + b) == After(After(t, a), b)
    decreases |a|
  {
    if a == [] {
      assert a + b == b;
    } else {
      assert (a + b)[1..] == a[1..] + b;
      RunsConcatenate(Step(t, a[0]).0, a[1..], b);
    }
  }

  /** The largest number of re-orgs and discards for which the `u8` cannot wrap. */
  const MAX_SAFE_RESUBMISSIONS := 252

  predicate RetriesOk(t: Task) {
    && t.retries == t.submissions % 256
    && (t.pc == Send ==> t.status.submission.MustSubmit?)
    && (t.resubmissions <= MAX_SAFE_RESUBMISSIONS ==>
          t.submissions <= 3 + t.resubmissions &&
          (t.status.submission.MustSubmit? ==> t.submissions <= 2 + t.resubmissions))
  }

  lemma StepKeepsRetries(t: Task, a: Answer)
    requires Accepts(t, a) && RetriesOk(t)
    ensures RetriesOk(Step(t, a).0)
  {
  }

  lemma {:induction false} RunKeepsRetries(t: Task, answers: seq<Answer>)
    requires TaskRun(t, answers) && RetriesOk(t)
    ensures RetriesOk(After(t, answers))
    decreases |answers|
  {
    if answers != [] {
      StepKeepsRetries(t, answers[0]);
      RunKeepsRetries(Step(t, answers[0]).0, answers[1..]);
    }
  }

  /**
   A timeout resubmits exactly when the `u8` shows fewer than 3 submissions, and
   otherwise shuts down; up to 252 re-orgs and discards the `u8` shows the truth.
   */
  lemma TimeoutResubmitsBelowThree(id: BlobId, blob: BlobToSend, st: ExecutionStatus, answers: seq<Answer>)
    requires TaskRun(Spawn(id, blob, st), answers)
    requires Accepts(After(Spawn(id, blob, st), answers), TimedOut)
    ensures var t := After(Spawn(id, blob, st), answers);
            var (t', e) := Step(t, TimedOut);
            && (if t.submissions % 256 < 3 then t'.status == FRESH && t'.Active() && e == Quiet
                else t'.pc == Exiting && e == SignalShutdown)
            && (t.resubmissions <= MAX_SAFE_RESUBMISSIONS ==> t.submissions % 256 == t.submissions)
  {
    RunKeepsRetries(Spawn(id, blob, st), answers);
  }

  // ------------------------------------------------- where the bound ends

  predicate AtTop(t: Task) { t.pc == Enter && t.status == FRESH }

  const RECEIPT := Receipt([], [])
  const DISCARD := LedgerSays(Some((true, Discarded(OutOfCapacity))))

  const DISCARD_ROUND := [SaveOk, SendOk(RECEIPT), SaveOk, Proceed, DISCARD, SaveOk, DISCARD, Proceed]
  const TIMEOUT_ROUND := [SaveOk, SendOk(RECEIPT), SaveOk, Proceed, TimedOut]

  lemma {:induction false} Trace(t: Task, answers: seq<Answer>, states: seq<Task>)
    requires |states| == |answers| + 1 && states[0] == t
    requires forall i :: 0 <= i < |answers| ==>
               Accepts(states[i], answers[i]) && states[i + 1] == Step(states[i], answers[i]).0
    ensures TaskRun(t, answers) && After(t, answers) == states[|answers|]
    decreases |answers|
  {
    if answers != [] {
      assert states[1] == Step(t, answers[0]).0;
      Trace(states[1], answers[1..], states[1..]);
    }
  }

  lemma SendAndHook(t: Task)
    requires AtTop(t)
    ensures var a := [SaveOk, SendOk(RECEIPT), SaveOk, Proceed];
            TaskRun(t, a) &&
            After(t, a) == t.(status := ExecutionStatus(Published(RECEIPT), None), pc := Poll,
                              retries := (t.retries + 1) % 256, submissions := t.submissions + 1)
  {
    var a := [SaveOk, SendOk(RECEIPT), SaveOk, Proceed];
    var t1 := Step(t, a[0]).0;
    var t2 := Step(t1, a[1]).0;
    var t3 := Step(t2, a[2]).0;
    Trace(t, a, [t, t1, t2, t3, Step(t3, a[3]).0]);
  }

  lemma DiscardedFromPoll(u: Task)
    requires u.pc == Poll && u.status == ExecutionStatus(Published(RECEIPT), None)
    ensures var b := [DISCARD, SaveOk, DISCARD, Proceed];
            TaskRun(u, b) && After(u, b) == u.(status := FRESH, pc := Enter, resubmissions := u.resubmissions + 1)
  {
    var b := [DISCARD, SaveOk, DISCARD, Proceed];
    var u1 := Step(u, b[0]).0;
    var u2 := Step(u1, b[1]).0;
    var u3 := Step(u2, b[2]).0;
    Trace(u, b, [u, u1, u2, u3, Step(u3, b[3]).0]);
  }

  lemma DiscardRound(t: Task)
    requires AtTop(t)
    ensures TaskRun(t, DISCARD_ROUND)
    ensures After(t, DISCARD_ROUND) == t.(retries := (t.retries + 1) % 256, submissions := t.submissions + 1,
                                          resubmissions := t.resubmissions + 1)
  {
    SendAndHook(t);
    var a, b := [SaveOk, SendOk(RECEIPT), SaveOk, Proceed], [DISCARD, SaveOk, DISCARD, Proceed];
    DiscardedFromPoll(After(t, a));
    RunsConcatenate(t, a, b);
    assert a + b == DISCARD_ROUND;
  }

  lemma TimeoutRound(t: Task)
    requires AtTop(t) && (t.retries + 1) % 256 < 3
    ensures TaskRun(t, TIMEOUT_ROUND)
    ensures After(t, TIMEOUT_ROUND) == t.(retries := (t.retries + 1) % 256, submissions := t.submissions + 1)
  {
    SendAndHook(t);
    var a := [SaveOk, SendOk(RECEIPT), SaveOk, Proceed];
    var u := After(t, a);
    Trace(u, [TimedOut], [u, Step(u, TimedOut).0]);
    RunsConcatenate(t, a, [TimedOut]);
    assert a + [TimedOut] == TIMEOUT_ROUND;
  }

  lemma {:induction false} DiscardRounds(t: Task, k: nat) returns (answers: seq<Answer>)
    requires AtTop(t) && t.retries == t.submissions % 256
    ensures TaskRun(t, answers)
    ensures After(t, answers) == t.(retries := (t.submissions + k) % 256, submissions := t.submissions + k,
                                    resubmissions := t.resubmissions + k)
    decreases k
  {
    if k == 0 {
      answers := [];
    } else {
      DiscardRound(t);
      var rest := DiscardRounds(After(t, DISCARD_ROUND), k - 1);
      RunsConcatenate(t, DISCARD_ROUND, rest);
      answers := DISCARD_ROUND + rest;
    }
  }

  /** Two timeouts, 253 discards, one more timeout past the wrap, then any number of discards. */
  lemma WrappedRun(id: BlobId, blob: BlobToSend, resubmissions: nat) returns (answers: seq<Answer>)
    requires resubmissions > MAX_SAFE_RESUBMISSIONS
    ensures TaskRun(Spawn(id, blob, FRESH), answers)
    ensures var t := After(Spawn(id, blob, FRESH), answers);
            t.resubmissions == resubmissions && t.submissions == 3 + resubmissions
    ensures AtTop(After(Spawn(id, blob, FRESH), answers))
  {
    var t0 := Spawn(id, blob, FRESH);
    TimeoutRound(t0);
    var t1 := After(t0, TIMEOUT_ROUND);
    TimeoutRound(t1);
    RunsConcatenate(t0, TIMEOUT_ROUND, TIMEOUT_ROUND);
    var two := TIMEOUT_ROUND + TIMEOUT_ROUND;
    var discards := DiscardRounds(After(t0, two), 253);
    RunsConcatenate(t0, two, discards);
    var t2 := After(t0, two + discards);
    assert t2.submissions == 255 && t2.retries == 255;
    TimeoutRound(t2);
    RunsConcatenate(t0, two + discards, TIMEOUT_ROUND);
    var wrapped := two + discards + TIMEOUT_ROUND;
    var t3 := After(t0, wrapped);
    var more := DiscardRounds(t3, resubmissions - 253);
    RunsConcatenate(t0, wrapped, more);
    answers := wrapped + more;
  }

  /**
   The submissions of a task never exceed 3 plus its re-orgs and discards, for
   every run with exactly `r` of them, if and only if `r` is at most 252.
   */
  lemma RetryBound(id: BlobId, blob: BlobToSend, r: nat)
    ensures (forall st, answers | TaskRun(Spawn(id, blob, st), answers) &&
                                  After(Spawn(id, blob, st), answers).resubmissions == r
               :: After(Spawn(id, blob, st), answers).submissions <= 3 + r)
            <==> r <= MAX_SAFE_RESUBMISSIONS
  {
    if r <= MAX_SAFE_RESUBMISSIONS {
      forall st, answers | TaskRun(Spawn(id, blob, st), answers)
        ensures RetriesOk(After(Spawn(id, blob, st), answers))
      {
        RunKeepsRetries(Spawn(id, blob, st), answers);
      }
    } else {
      var t0 := Spawn(id, blob, FRESH);
      var answers := WrappedRun(id, blob, r);
      var t := After(t0, answers);
      var send := [SaveOk, SendOk(RECEIPT)];
      var t1 := Step(t, SaveOk).0;
      Trace(t, send, [t, t1, Step(t1, send[1]).0]);
      RunsConcatenate(t0, answers, send);
      assert After(t0, answers + send).submissions == 4 + r;
    }
  }
}
