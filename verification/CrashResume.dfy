/** What a job's history stores when its worker crashes and is restarted, any number of times and at any
    step, against the retry loop that is never interrupted. */
module CrashResume {
  import opened Delivery
  import opened WorkerProtocol
  import opened History
  import opened MultiWorker
  import opened SharedJobs
  import opened SingleConsumer
  import opened Environment
  import opened RetryEngine

  // ---------------------------------------------------------------------------------------
  // The writes of every run

  function Expiries(k: nat, times: nat): seq<StatusWrite> {
    seq(times, _ => StatusWrite(Expired, k))
  }

  /** A job's writes are told by its row: RETRYING 1, 2, ... up to the stored count, and after it nothing,
      one SENT, one FAILED, or EXPIRED with that count, possibly more than once. */
  predicate Recorded(t: Table, saves: seq<StatusWrite>, j: JobId) {
    if j !in t then saves == []
    else
      var k := t[j].attempts;
      match t[j].status
      case Processing => saves == Retries(0, k)
      case Retrying => saves == Retries(0, k)
      case Expired => |saves| > k && saves == Retries(0, k) + Expiries(k, |saves| - k)
      case _ => k >= 1 && saves == Retries(0, k - 1) + [StatusWrite(t[j].status, k)]
  }

  lemma RetriesGrow(k: nat)
    ensures Retries(0, 0) == [] && |Retries(0, k)| == k
    ensures Retries(0, k + 1) == Retries(0, k) + [StatusWrite(Retrying, k + 1)]
  {
  }

  lemma ExpiriesGrow(k: nat, times: nat)
    ensures Expiries(k, 0) == [] && Expiries(k, times + 1) == Expiries(k, times) + [StatusWrite(Expired, k)]
    ensures Expiries(k, 1) == [StatusWrite(Expired, k)]
  {
  }

  lemma ActRecordedInLoop(c: Config, w: nat, t: Table, pc: Pc, a: Action, saves: seq<StatusWrite>, j: JobId, e: Effect)
    requires InLoop(pc) && Fresh(t, pc) && Recorded(t, saves, j)
    requires e == Act(c, w, t, pc, a) && e.Effect?
    ensures Recorded(e.table, saves + SaveOf(e.event, j), j)
  {
    hide Prepare, ClaimJob, Retries, Expiries;
    if SaveOf(e.event, j) == [] {
      assert saves + [] == saves;
    } else if pc.SavingFailure? {
      RetriesGrow(pc.attempts - 1);
    }
  }

  lemma ActRecordedOutside(c: Config, w: nat, t: Table, pc: Pc, a: Action, saves: seq<StatusWrite>, j: JobId, e: Effect)
    requires !InLoop(pc) && Fresh(t, pc) && Recorded(t, saves, j)
    requires e == Act(c, w, t, pc, a) && e.Effect?
    ensures Recorded(e.table, saves + SaveOf(e.event, j), j)
  {
    hide Loop, Retries, Expiries;
    RetriesGrow(0);
    if SaveOf(e.event, j) == [] {
      assert saves + [] == saves;
    } else {
      RetriesGrow(pc.snap);
      ExpiriesGrow(pc.snap, |saves| - pc.snap);
    }
  }

  lemma {:induction false} RunRecords(c: Config, log: seq<Message>, s: Consumer, run: seq<Action>, j: JobId)
    requires Invariant(c, log, s) && Recorded(s.store.table, SavesOf(s.store.trace, j), j)
    requires ConsumerExec(c, log, s, run).Some?
    ensures var s' := ConsumerExec(c, log, s, run).value;
            Recorded(s'.store.table, SavesOf(s'.store.trace, j), j)
    decreases |run|
  {
    hide Act, Recorded, Fresh, SavesOf;
    if run != [] {
      var e := Act(c, 0, s.store.table, s.pc, run[0]);
      InvariantStep(c, log, s, run[0]);
      if InLoop(s.pc) {
        ActRecordedInLoop(c, 0, s.store.table, s.pc, run[0], SavesOf(s.store.trace, j), j, e);
      } else {
        ActRecordedOutside(c, 0, s.store.table, s.pc, run[0], SavesOf(s.store.trace, j), j, e);
      }
      SavesAfter(s.store, e, j);
      RunRecords(c, log, ConsumerStep(c, log, s, run[0]).value, run[1..], j);
    }
  }

  /** In every run, with any crashes, copies, errors and clocks, the stored row tells the whole history of
      the job's writes: no count is skipped, repeated or stored out of order. */
  lemma WritesAreRecorded(c: Config, log: seq<Message>, run: seq<Action>, j: JobId)
    requires c.maxAttempts >= 1
    requires ConsumerExec(c, log, Start(), run).Some?
    ensures var s := ConsumerExec(c, log, Start(), run).value;
            Recorded(s.store.table, SavesOf(s.store.trace, j), j)
  {
    RunRecords(c, log, Start(), run, j);
  }

  // ---------------------------------------------------------------------------------------
  // Against the uninterrupted loop

  /** The same answers of the sender and of the SENT save, with every other save and publish successful. */
  function Calm(env: nat -> Weather): nat -> Weather {
    (n: nat) => env(n).(saveFailure := None, publish := true)
  }

  /** Attempt n of job j is answered as env says, whenever it is made, and however often. */
  predicate Answered(pc: Pc, a: Action, j: JobId, env: nat -> Weather) {
    && (a.SendReturns? && pc.Sending? && pc.job.id == j ==> a.error == env(pc.attempts).send)
    && (a.SaveStatus? && pc.SavingSent? && pc.job.id == j ==> a.error == env(pc.attempts).saveSent)
  }

  ghost predicate Answers(c: Config, log: seq<Message>, s: Consumer, run: seq<Action>, j: JobId, env: nat -> Weather)
    requires ConsumerExec(c, log, s, run).Some?
    decreases |run|
  {
    run != [] ==>
      Answered(s.pc, run[0], j, env) && Answers(c, log, ConsumerStep(c, log, s, run[0]).value, run[1..], j, env)
  }

  /** The row has not passed the attempt on which the uninterrupted loop stops, and is SENT or FAILED only
      as that loop leaves it. */
  predicate RowOnCourse(c: Config, t: Table, j: JobId, env: nat -> Weather)
    requires c.maxAttempts >= 1
  {
    var stop := Stop(0, c.maxAttempts, Calm(env));
    j in t ==>
      match t[j].status
      case Sent => t[j].attempts == stop && Outcome(0, c.maxAttempts, Calm(env)).Delivered?
      case Failed => t[j].attempts == stop && Outcome(0, c.maxAttempts, Calm(env)).GivenUp?
      case _ => t[j].attempts < stop
  }

  /** What the worker has seen of the attempt it is making. */
  predicate PcOnCourse(pc: Pc, j: JobId, env: nat -> Weather) {
    && (pc.SavingSent? && pc.job.id == j ==> env(pc.attempts).send.None?)
    && (pc.SavingFailure? && pc.job.id == j ==> env(pc.attempts).send.Some? || env(pc.attempts).saveSent.Some?)
  }

  lemma ActSeesAnswers(c: Config, w: nat, t: Table, pc: Pc, a: Action, j: JobId, env: nat -> Weather, e: Effect)
    requires PcOnCourse(pc, j, env) && Answered(pc, a, j, env)
    requires e == Act(c, w, t, pc, a) && e.Effect?
    ensures PcOnCourse(e.pc, j, env)
  {
    hide Save;
  }

  lemma ActOnCourse(c: Config, w: nat, t: Table, pc: Pc, a: Action, j: JobId, env: nat -> Weather, e: Effect)
    requires c.maxAttempts >= 1 && PcOk(c, t, pc) && Fresh(t, pc)
    requires RowOnCourse(c, t, j, env) && PcOnCourse(pc, j, env) && Answered(pc, a, j, env)
    requires e == Act(c, w, t, pc, a) && e.Effect?
    ensures RowOnCourse(c, e.table, j, env)
  {
    var stop := Stop(0, c.maxAttempts, Calm(env));
    if (pc.SavingSent? || pc.SavingFailure?) && pc.job.id == j {
      assert pc.attempts <= stop;
      assert pc.attempts < stop ==> Judge(c.maxAttempts, pc.attempts, Calm(env)(pc.attempts)) == Again;
    }
  }

  lemma {:induction false} RunStaysOnCourse(c: Config, log: seq<Message>, s: Consumer, run: seq<Action>, j: JobId,
                                            env: nat -> Weather)
    requires Invariant(c, log, s) && RowOnCourse(c, s.store.table, j, env) && PcOnCourse(s.pc, j, env)
    requires ConsumerExec(c, log, s, run).Some? && Answers(c, log, s, run, j, env)
    ensures RowOnCourse(c, ConsumerExec(c, log, s, run).value.store.table, j, env)
    decreases |run|
  {
    hide Act, RowOnCourse, PcOnCourse, Answered, Fresh, PcOk;
    if run != [] {
      var e := Act(c, 0, s.store.table, s.pc, run[0]);
      InvariantStep(c, log, s, run[0]);
      ActSeesAnswers(c, 0, s.store.table, s.pc, run[0], j, env, e);
      ActOnCourse(c, 0, s.store.table, s.pc, run[0], j, env, e);
      RunStaysOnCourse(c, log, ConsumerStep(c, log, s, run[0]).value, run[1..], j, env);
    }
  }

  /** The writes of the uninterrupted loop, or a part of them that ends before its last. */
  predicate PartOfLoop(c: Config, row: Row, saves: seq<StatusWrite>, env: nat -> Weather)
    requires c.maxAttempts >= 1
  {
    var whole := Writes(0, c.maxAttempts, Calm(env));
    match row.status
    case Processing => saves < whole
    case Retrying => saves < whole
    case Expired => row.attempts <= |saves| && saves[..row.attempts] < whole
    case _ => saves == whole
  }

  lemma RetriesInLoop(c: Config, k: nat, env: nat -> Weather)
    requires c.maxAttempts >= 1 && k < Stop(0, c.maxAttempts, Calm(env))
    ensures |Retries(0, k)| == k && Retries(0, k) < Writes(0, c.maxAttempts, Calm(env))
  {
  }

  lemma RecordedOnCourse(c: Config, t: Table, saves: seq<StatusWrite>, j: JobId, env: nat -> Weather)
    requires c.maxAttempts >= 1 && j in t && Recorded(t, saves, j) && RowOnCourse(c, t, j, env)
    ensures PartOfLoop(c, t[j], saves, env)
  {
    hide Retries, Expiries, Stop;
    if t[j].attempts < Stop(0, c.maxAttempts, Calm(env)) {
      RetriesInLoop(c, t[j].attempts, env);
    }
  }

  /** However often its worker crashes, is restarted or raises: a job that ends SENT or FAILED has stored
      exactly the writes of one uninterrupted loop, and a job that has not ended a part of them. */
  lemma ResumeComposes(c: Config, log: seq<Message>, run: seq<Action>, j: JobId, env: nat -> Weather)
    requires c.maxAttempts >= 1
    requires ConsumerExec(c, log, Start(), run).Some? && Answers(c, log, Start(), run, j, env)
    ensures var s := ConsumerExec(c, log, Start(), run).value;
            j in s.store.table ==> PartOfLoop(c, s.store.table[j], SavesOf(s.store.trace, j), env)
  {
    hide SavesOf, Recorded, PartOfLoop;
    WritesAreRecorded(c, log, run, j);
    RunStaysOnCourse(c, log, Start(), run, j, env);
    var s := ConsumerExec(c, log, Start(), run).value;
    if j in s.store.table {
      RecordedOnCourse(c, s.store.table, SavesOf(s.store.trace, j), j, env);
    }
  }

  lemma StartConserved(j: JobId)
    ensures Conserved(Start(), j)
  {
  }

  /** And it comes to the same DLQ outcome: unless the worker is publishing, or was stopped before it did,
      a job has its one entry for a stored FAILED exactly when it has ended and the loop gives up. */
  lemma ResumePublishes(c: Config, log: seq<Message>, run: seq<Action>, j: JobId, env: nat -> Weather)
    requires c.maxAttempts >= 1
    requires ConsumerExec(c, log, Start(), run).Some? && Answers(c, log, Start(), run, j, env)
    ensures var s := ConsumerExec(c, log, Start(), run).value;
            var ended := j in s.store.table && (s.store.table[j].status == Sent || s.store.table[j].status == Failed);
            Count(s.store.trace, j, Abandons) == 0 && PublishingFailed(s.pc, j) == 0 ==>
              Count(s.store.trace, j, FinalDlqs) == if ended && Outcome(0, c.maxAttempts, Calm(env)).GivenUp? then 1 else 0
  {
    hide Act, Answers, Count, Stop, Calm, PublishingFailed, InFlight, AwaitingSent;
    StartConserved(j);
    RunKeepsConserved(c, log, Start(), run, j);
    RunStaysOnCourse(c, log, Start(), run, j, env);
  }

  // ---------------------------------------------------------------------------------------
  // One crash

  lemma Stopped(c: Config, log: seq<Message>, s: Consumer) returns (s': Consumer)
    requires s.pc.Looping? || Calling(s.pc)
    ensures ConsumerExec(c, log, s, [Crash]) == Some(s')
    ensures s'.pc == Idle && s'.position == s'.committed == s.committed && s'.store.table == s.store.table
    ensures SavesOf(s'.store.trace, s.pc.job.id) == SavesOf(s.store.trace, s.pc.job.id)
    ensures Count(s'.store.trace, s.pc.job.id, Calls) == Count(s.store.trace, s.pc.job.id, Calls)
  {
    hide SavesOf, Count;
    var e := Act(c, 0, s.store.table, s.pc, Crash);
    SavesAfter(s.store, e, s.pc.job.id);
    CountAfter(s.store, e, s.pc.job.id, Calls);
    s' := ConsumerStep(c, log, s, Crash).value;
    assert [Crash][1..] == [];
  }

  /** The worker stops, the message comes again, the row is read again. */
  lemma Reread(c: Config, log: seq<Message>, s: Consumer) returns (run: seq<Action>, s': Consumer)
    requires s.pc.Looping? || Calling(s.pc)
    requires OffsetsOk(log, s) && s.pc.job.id in s.store.table && !s.store.table[s.pc.job.id].status.Terminal()
    ensures run == [Crash, Receive(Valid(s.pc.job)), Read(true)] && ConsumerExec(c, log, s, run) == Some(s')
    ensures s'.pc == CheckingExpiry(s.pc.job, StoredAttempts(s.store.table, s.pc.job.id))
    ensures s'.position == s.position && s'.committed == s.committed && s'.store.table == s.store.table
    ensures SavesOf(s'.store.trace, s.pc.job.id) == SavesOf(s.store.trace, s.pc.job.id)
    ensures Count(s'.store.trace, s.pc.job.id, Calls) == Count(s.store.trace, s.pc.job.id, Calls)
  {
    hide SavesOf, Count, ConsumerExec, ClaimJob, Loop;
    s' := Stopped(c, log, s);
    run := [Crash];
    run, s' := Advance(c, log, s, run, s', Receive(Valid(s.pc.job)));
    run, s' := Advance(c, log, s, run, s', Read(true));
  }

  lemma Reclaimed(c: Config, log: seq<Message>, s: Consumer, run0: seq<Action>, s0: Consumer, now: int)
    returns (run: seq<Action>, s': Consumer)
    requires ConsumerExec(c, log, s, run0) == Some(s0) && s0.pc.CheckingExpiry?
    requires s0.pc.job.id in s0.store.table && !IsExpired(s0.pc.job, now)
    ensures run == run0 + [CheckExpiry(now), Insert(now, true), Update(true)] && ConsumerExec(c, log, s, run) == Some(s')
    ensures var claim := AtomicClaim(s0.store.table, s0.pc.job, now, c.staleAfter);
            && s'.pc == (if claim.claimed then Looping(s0.pc.job, s0.pc.snap) else Busy(s0.pc.job))
            && s'.position == s0.position && s'.committed == s0.committed && s'.store.table == claim.table
    ensures SavesOf(s'.store.trace, s0.pc.job.id) == SavesOf(s0.store.trace, s0.pc.job.id)
    ensures Count(s'.store.trace, s0.pc.job.id, Calls) == Count(s0.store.trace, s0.pc.job.id, Calls)
  {
    hide SavesOf, Count, Loop, ConsumerExec;
    run, s' := Advance(c, log, s, run0, s0, CheckExpiry(now));
    run, s' := Advance(c, log, s, run, s', Insert(now, true));
    var e := Act(c, 0, s'.store.table, s'.pc, Update(true));
    SavesAfter(s'.store, e, s0.pc.job.id);
    CountAfter(s'.store, e, s0.pc.job.id, Calls);
    run, s' := Advance(c, log, s, run, s', Update(true));
  }

  lemma ResumeFrom(c: Config, log: seq<Message>, s: Consumer, now: int) returns (run: seq<Action>, s': Consumer)
    requires (s.pc.Looping? || Calling(s.pc)) && !IsExpired(s.pc.job, now)
    requires OffsetsOk(log, s) && s.pc.job.id in s.store.table && !s.store.table[s.pc.job.id].status.Terminal()
    ensures run == [Crash, Receive(Valid(s.pc.job)), Read(true), CheckExpiry(now), Insert(now, true), Update(true)]
    ensures ConsumerExec(c, log, s, run) == Some(s')
    ensures SavesOf(s'.store.trace, s.pc.job.id) == SavesOf(s.store.trace, s.pc.job.id)
    ensures Count(s'.store.trace, s.pc.job.id, Calls) == Count(s.store.trace, s.pc.job.id, Calls)
    ensures s'.pc == if Claimable(s.store.table[s.pc.job.id], now - c.staleAfter)
                     then Looping(s.pc.job, StoredAttempts(s.store.table, s.pc.job.id)) else Busy(s.pc.job)
  {
    hide ConsumerExec, SavesOf, Count, OffsetsOk, IsExpired, Claimable;
    run, s' := Reread(c, log, s);
    run, s' := Reclaimed(c, log, s, run, s', now);
  }

  /** The invariant at a worker that holds a claim. */
  lemma HoldsRow(c: Config, log: seq<Message>, s: Consumer)
    requires Invariant(c, log, s) && (s.pc.Looping? || Calling(s.pc))
    ensures OffsetsOk(log, s) && s.pc.job.id in s.store.table && !s.store.table[s.pc.job.id].status.Terminal()
  {
    hide TableOk, PcOk, OffsetsOk, BusyOk, DoneOk;
  }

  /** A worker of any reachable state stops between its claim and its next status write, and the job is
      redelivered at once, unexpired. The restarted worker is back at the head of the loop with the stored
      count and the writes and calls made so far, if and only if the row may be claimed at that instant:
      it is RETRYING, or its lease has run out. */
  lemma CrashThenResume(c: Config, log: seq<Message>, first: seq<Action>, now: int) returns (run: seq<Action>, s': Consumer)
    requires c.maxAttempts >= 1
    requires ConsumerExec(c, log, Start(), first).Some?
    requires var s := ConsumerExec(c, log, Start(), first).value;
             (s.pc.Looping? || Calling(s.pc)) && !IsExpired(s.pc.job, now)
    ensures var s := ConsumerExec(c, log, Start(), first).value;
            && run == [Crash, Receive(Valid(s.pc.job)), Read(true), CheckExpiry(now), Insert(now, true), Update(true)]
            && ConsumerExec(c, log, s, run) == Some(s')
            && SavesOf(s'.store.trace, s.pc.job.id) == SavesOf(s.store.trace, s.pc.job.id)
            && Count(s'.store.trace, s.pc.job.id, Calls) == Count(s.store.trace, s.pc.job.id, Calls)
            && s.pc.job.id in s.store.table
            && s'.pc == (if Claimable(s.store.table[s.pc.job.id], now - c.staleAfter)
                         then Looping(s.pc.job, StoredAttempts(s.store.table, s.pc.job.id)) else Busy(s.pc.job))
  {
    assert Invariant(c, log, Start());
    hide *;
    RunKeepsInvariant(c, log, Start(), first);
    HoldsRow(c, log, ConsumerExec(c, log, Start(), first).value);
    run, s' := ResumeFrom(c, log, ConsumerExec(c, log, Start(), first).value, now);
  }
}
