/** Two runs of one consumer that lose a job, each by one crash. */
module LostJobs {
  import opened Delivery
  import opened WorkerProtocol
  import opened History
  import opened SingleConsumer

  const JOB: Job := Job(0, 0, Email, None, None)

  const LOG: seq<Message> := [Valid(JOB)]

  /** Fetches the message and reads the row; the job is not skipped. */
  lemma Fetch(c: Config, run: seq<Action>, s: Consumer) returns (run': seq<Action>, s': Consumer)
    requires ConsumerExec(c, LOG, Start(), run) == Some(s)
    requires s.pc == Idle && s.position == 0
    requires !ShouldSkip(c, Lookup(s.store.table, 0))
    ensures ConsumerExec(c, LOG, Start(), run') == Some(s')
    ensures s' == s.(pc := CheckingExpiry(JOB, StoredAttempts(s.store.table, 0)), position := 1)
  {
    run', s' := Advance(c, LOG, Start(), run, s, Receive(Valid(JOB)));
    run', s' := Advance(c, LOG, Start(), run', s', Read(true));
  }

  lemma Claimed(c: Config) returns (run: seq<Action>, s: Consumer)
    requires c.maxAttempts >= 1
    ensures ConsumerExec(c, LOG, Start(), run) == Some(s)
    ensures s == Consumer(Store(map[0 := Row(0, Email, Processing, 0, None, None, Some(0))],
                                [JobEvent(0, 0, Kind.Claimed(0, 0, true))]), Looping(JOB, 0), 1, 0)
  {
    run, s := Fetch(c, [], Start());
    run, s := Advance(c, LOG, Start(), run, s, CheckExpiry(0));
    run, s := Advance(c, LOG, Start(), run, s, Insert(0, true));
  }

  /** A crash after the claim and a restart at once: the INSERT finds the row, the UPDATE its lease. */
  lemma Refused(c: Config) returns (run: seq<Action>, s: Consumer)
    requires c.maxAttempts >= 1 && c.staleAfter >= 0
    ensures ConsumerExec(c, LOG, Start(), run) == Some(s)
    ensures s.pc == Updating(JOB, 0, 0) && s.position == 1 && s.committed == 0
    ensures s.store == Store(map[0 := Row(0, Email, Processing, 0, None, None, Some(0))],
                             [JobEvent(0, 0, Kind.Claimed(0, 0, true))])
  {
    hide Loop, ConsumerExec;
    run, s := Claimed(c);
    run, s := Advance(c, LOG, Start(), run, s, Crash);
    run, s := Fetch(c, run, s);
    run, s := Advance(c, LOG, Start(), run, s, CheckExpiry(0));
    run, s := Advance(c, LOG, Start(), run, s, Insert(0, true));
  }

  /** The refused claim is committed, and the job is neither delivered, nor failed, nor in the DLQ. */
  lemma RedeliveredWithinLease(c: Config) returns (run: seq<Action>, s: Consumer)
    requires c.maxAttempts >= 1 && c.staleAfter >= 0
    ensures ConsumerExec(c, LOG, Start(), run) == Some(s)
    ensures s.committed == 1 && !Settled(s.store, LOG[0])
  {
    hide Prepare, Loop, ConsumerExec;
    run, s := Refused(c);
    run, s := Advance(c, LOG, Start(), run, s, Update(true));
    run, s := Advance(c, LOG, Start(), run, s, Commit);
  }

  /** An event that is no DLQ entry leaves the job out of the DLQ. */
  lemma StaysOut(s: Store, e: Effect, j: JobId)
    requires e.Effect? && !InDlq(s.trace, j)
    requires e.event.JobEvent? ==> !e.event.kind.Dlq?
    ensures !InDlq(s.After(e).trace, j)
  {
    var trace := s.After(e).trace;
    forall i | 0 <= i < |trace| && trace[i].JobEvent? && trace[i].job == j
      ensures !trace[i].kind.Dlq?
    {
      assert i < |s.trace| ==> trace[i] == s.trace[i];
    }
  }

  /** The next attempt is refused by the sender. */
  lemma Refuses(c: Config, run: seq<Action>, s: Consumer, n: nat) returns (run': seq<Action>, s': Consumer)
    requires ConsumerExec(c, LOG, Start(), run) == Some(s) && n < c.maxAttempts
    requires s.pc == Looping(JOB, n) && s.position == 1 && s.committed == 0 && !InDlq(s.store.trace, 0)
    ensures ConsumerExec(c, LOG, Start(), run') == Some(s')
    ensures s'.pc == SavingFailure(JOB, n + 1, "refused") && s'.position == 1 && s'.committed == 0
    ensures !InDlq(s'.store.trace, 0)
  {
    hide InDlq, Prepare, ClaimJob, ConsumerExec;
    StaysOut(s.store, Act(c, 0, s.store.table, s.pc, Attempt), 0);
    run', s' := Advance(c, LOG, Start(), run, s, Attempt);
    run', s' := Advance(c, LOG, Start(), run', s', SendReturns(Some("refused")));
  }

  /** And its failure stored. */
  lemma Fails(c: Config, run: seq<Action>, s: Consumer, n: nat) returns (run': seq<Action>, s': Consumer)
    requires ConsumerExec(c, LOG, Start(), run) == Some(s) && n < c.maxAttempts
    requires s.pc == Looping(JOB, n) && s.position == 1 && s.committed == 0 && !InDlq(s.store.trace, 0)
    ensures ConsumerExec(c, LOG, Start(), run') == Some(s')
    ensures s'.pc == (if n + 1 < c.maxAttempts then Looping(JOB, n + 1) else PublishingFinal(JOB, n + 1))
    ensures s'.position == 1 && s'.committed == 0 && !InDlq(s'.store.trace, 0)
    ensures n + 1 == c.maxAttempts ==> HasStatus(s'.store.table, 0, Failed) == 1 && s'.store.table[0].attempts == c.maxAttempts
  {
    hide InDlq, Prepare, ClaimJob, ConsumerExec;
    run', s' := Refuses(c, run, s, n);
    StaysOut(s'.store, Act(c, 0, s'.store.table, s'.pc, SaveStatus(0, None)), 0);
    run', s' := Advance(c, LOG, Start(), run', s', SaveStatus(0, None));
  }

  /** n attempts fail, and leave budget. */
  lemma {:induction false} AttemptsFail(c: Config, n: nat) returns (run: seq<Action>, s: Consumer)
    requires n < c.maxAttempts
    ensures ConsumerExec(c, LOG, Start(), run) == Some(s)
    ensures s.pc == Looping(JOB, n) && s.position == 1 && s.committed == 0 && !InDlq(s.store.trace, 0)
  {
    if n == 0 {
      run, s := Claimed(c);
    } else {
      run, s := AttemptsFail(c, n - 1);
      run, s := Fails(c, run, s, n - 1);
    }
  }

  /** FAILED is stored after the last attempt, and the worker stops before the DLQ entry. */
  lemma StoppedBeforeDlq(c: Config) returns (run: seq<Action>, s: Consumer)
    requires c.maxAttempts >= 1
    ensures ConsumerExec(c, LOG, Start(), run) == Some(s)
    ensures s.pc == Idle && s.position == 0 && s.committed == 0
    ensures HasStatus(s.store.table, 0, Failed) == 1 && s.store.table[0].attempts == c.maxAttempts
    ensures !InDlq(s.store.trace, 0)
  {
    hide InDlq, Prepare, ClaimJob, Loop, ConsumerExec;
    run, s := AttemptsFail(c, c.maxAttempts - 1);
    run, s := Fails(c, run, s, c.maxAttempts - 1);
    StaysOut(s.store, Act(c, 0, s.store.table, s.pc, Crash), 0);
    run, s := Advance(c, LOG, Start(), run, s, Crash);
  }

  /** For every budget: the redelivered job is skipped and committed, FAILED and in no DLQ. */
  lemma FailedWithoutDlq(c: Config) returns (run: seq<Action>, s: Consumer)
    requires c.maxAttempts >= 1
    ensures ConsumerExec(c, LOG, Start(), run) == Some(s)
    ensures s.committed == 1 && HasStatus(s.store.table, 0, Failed) == 1 && !InDlq(s.store.trace, 0)
  {
    hide InDlq, ClaimJob, Loop, ConsumerExec;
    run, s := StoppedBeforeDlq(c);
    run, s := Advance(c, LOG, Start(), run, s, Receive(Valid(JOB)));
    run, s := Advance(c, LOG, Start(), run, s, Read(true));
    run, s := Advance(c, LOG, Start(), run, s, Commit);
  }
}
