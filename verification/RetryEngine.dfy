/** The retry loop of one job, as the program runs it: in place on the repository, the DLQ and the clock. */
module RetryEngine {
  import opened Delivery
  import opened WorkerProtocol
  import opened History
  import opened SingleConsumer
  import opened Environment

  class DlqPublisher {
    var entries: seq<DlqEntry>

    constructor ()
      ensures entries == []
    {
      entries := [];
    }

    method Publish(entry: DlqEntry)
      modifies this
      ensures entries == old(entries) + [entry]
    {
      entries := entries + [entry];
    }
  }

  function Slept(delay: int): nat {
    if delay > 0 then delay else 0
  }

  class Clock {
    var now: int

    constructor (start: int)
      ensures now == start
    {
      now := start;
    }

    /** asyncio.sleep: at once for a delay that is not positive. */
    method Sleep(delay: int)
      modifies this
      ensures now == if delay > 0 then old(now) + delay else old(now)
    {
      if delay > 0 {
        now := now + delay;
      }
    }

    method Spend(took: nat)
      modifies this
      ensures now == old(now) + took
    {
      now := now + took;
    }
  }

  /** One call of the sender: the job and the instant. */
  datatype Call = Call(job: Job, at: int)

  class Sender {
    var calls: seq<Call>

    constructor ()
      ensures calls == []
    {
      calls := [];
    }

    /** Returns, or raises, after the time it takes. */
    method Send(job: Job, w: Weather, clock: Clock) returns (error: Option<string>)
      modifies this, clock
      ensures calls == old(calls) + [Call(job, old(clock.now))]
      ensures error == w.send && clock.now == old(clock.now) + w.took
    {
      calls := calls + [Call(job, clock.now)];
      clock.Spend(w.took);
      error := w.send;
    }
  }

  /** The calls for one job at the given instants. */
  function CallsFor(job: Job, at: seq<int>): seq<Call> {
    seq(|at|, i requires 0 <= i < |at| => Call(job, at[i]))
  }

  lemma CallsForNext(job: Job, at: seq<int>, now: int)
    ensures CallsFor(job, []) == [] && CallsFor(job, at + [now]) == CallsFor(job, at) + [Call(job, now)]
  {
  }

  function JobIds(calls: seq<Call>): seq<JobId> {
    seq(|calls|, i requires 0 <= i < |calls| => calls[i].job.id)
  }

  lemma JobIdsNext(calls: seq<Call>, call: Call)
    ensures JobIds(calls + [call]) == JobIds(calls) + [call.job.id]
  {
  }

  /** The objects of the program hold what the protocol state says: the stored rows, the published DLQ
      entries, the calls of the sender. */
  predicate Mirrors(s: Consumer, table: Table, entries: seq<DlqEntry>, calls: seq<Call>) {
    && s.store.table == table
    && DlqEntries(s.store.trace) == entries
    && JobsCalled(s.store.trace) == JobIds(calls)
  }

  /** What the theorems count as calls of a job is how often the sender was really called for it. */
  lemma CallsAreReal(s: Consumer, table: Table, entries: seq<DlqEntry>, calls: seq<Call>, j: JobId)
    requires Mirrors(s, table, entries, calls)
    ensures multiset(JobIds(calls))[j] == Count(s.store.trace, j, Calls)
  {
    CallsAreCounted(s.store.trace, j);
  }

  /** Select a delay for the attempt that just failed, bounded by the list. */
  function GetRetryDelay(attempts: nat, delays: seq<int>): (delay: int)
    ensures delays == [] ==> delay == 0
    ensures delays != [] ==> delay in delays
    ensures 1 <= attempts <= |delays| ==> delay == delays[attempts - 1]
    ensures attempts > |delays| > 0 ==> delay == delays[|delays| - 1]
  {
    if delays == [] then 0
    else
      var last := |delays| - 1;
      var idx := if attempts - 1 < last then attempts - 1 else last;
      delays[if idx < 0 then 0 else idx]
  }

  // ---------------------------------------------------------------------------------------
  // What one attempt should do

  /** How an attempt ends: SENT is stored; RETRYING is; FAILED and the DLQ entry are; or the loop raises
      because the failure could not be stored, or the stored FAILED not published. */
  datatype Verdict = Delivered | Again | GivenUp | Unsaved | Unpublished

  function Judge(max: int, n: nat, w: Weather): Verdict {
    if w.send.None? && w.saveSent.None? then Delivered
    else if w.saveFailure.Some? then Unsaved
    else if n < max then Again
    else if w.publish then GivenUp
    else Unpublished
  }

  function TurnSaves(n: nat, verdict: Verdict): seq<StatusWrite> {
    match verdict
    case Delivered => [StatusWrite(Sent, n)]
    case Again => [StatusWrite(Retrying, n)]
    case Unsaved => []
    case _ => [StatusWrite(Failed, n)]
  }

  function TurnEntries(job: Job, verdict: Verdict): seq<DlqEntry> {
    if verdict.GivenUp? then [OfJob(job.id)] else []
  }

  function TurnLedger(l: Ledger, job: Job, n: nat, verdict: Verdict): Ledger {
    Ledger(l.entries + TurnEntries(job, verdict), l.called + [job.id], l.saves + TurnSaves(n, verdict))
  }

  function TurnPc(job: Job, n: nat, verdict: Verdict): Pc {
    match verdict
    case Again => Looping(job, n)
    case Unsaved => PublishingEscape(job, false)
    case Unpublished => PublishingEscape(job, true)
    case _ => Done
  }

  /** The exception that made the attempt fail: the sender's, or that of the SENT save. */
  function Failure(w: Weather): Option<string> {
    if w.send.Some? then w.send else w.saveSent
  }

  /** The table after attempt n, its send having returned at `now`. */
  function TurnTable(t: Table, job: Job, max: int, n: nat, w: Weather, now: int): Table {
    match Judge(max, n, w)
    case Delivered => Save(t, job, Sent, n, None, Some(now))
    case Again => Save(t, job, Retrying, n, Failure(w), None)
    case Unsaved => t
    case _ => Save(t, job, Failed, n, Failure(w), None)
  }

  /** The verdict in the terms of the errors met. */
  predicate VerdictExact(max: int, n: nat, w: Weather, verdict: Verdict) {
    var failed := w.send.Some? || w.saveSent.Some?;
    && (verdict.Delivered? <==> !failed)
    && (verdict.Unsaved? <==> failed && w.saveFailure.Some?)
    && (verdict.Again? <==> failed && w.saveFailure.None? && n < max)
    && (verdict.GivenUp? <==> failed && w.saveFailure.None? && n >= max && w.publish)
  }

  /** The job's row alone has changed: its columns after attempt n, whose send returned at `now`. */
  predicate RowExact(was: Table, t: Table, job: Job, n: nat, w: Weather, verdict: Verdict, now: int) {
    && t - {job.id} == was - {job.id}
    && (verdict.Unsaved? ==> t == was)
    && (!verdict.Unsaved? ==>
          && job.id in t && t[job.id].attempts == n && t[job.id].startedAt == None
          && t[job.id].status == (if verdict.Delivered? then Sent else if verdict.Again? then Retrying else Failed)
          && t[job.id].error == (if verdict.Delivered? then None else if w.send.Some? then w.send else w.saveSent)
          && t[job.id].sentAt == (if verdict.Delivered? then Some(now) else None))
  }

  // ---------------------------------------------------------------------------------------
  // What the loop should do

  /** The attempt on which a loop started at e stops: the first that does not end in RETRYING. */
  function Stop(e: nat, max: nat, env: nat -> Weather): (n: nat)
    requires e < max
    ensures e < n <= max
    ensures forall k | e < k < n :: Judge(max, k, env(k)) == Again
    ensures Judge(max, n, env(n)) != Again
    decreases max - e
  {
    if Judge(max, e + 1, env(e + 1)) != Again then e + 1 else Stop(e + 1, max, env)
  }

  function Outcome(e: nat, max: nat, env: nat -> Weather): (verdict: Verdict)
    requires e < max
    ensures verdict != Again
  {
    var n := Stop(e, max, env);
    Judge(max, n, env(n))
  }

  function Retries(e: nat, n: nat): seq<StatusWrite>
    requires e <= n
  {
    seq(n - e, i requires 0 <= i => StatusWrite(Retrying, e + 1 + i))
  }

  /** RETRYING with consecutive counts from e + 1, then what the last attempt stores. */
  function Writes(e: nat, max: nat, env: nat -> Weather): seq<StatusWrite>
    requires e < max
  {
    var n := Stop(e, max, env);
    Retries(e, n - 1) + TurnSaves(n, Outcome(e, max, env))
  }

  function Delays(e: nat, n: nat, delays: seq<int>): seq<int>
    requires e <= n
  {
    seq(n - e, i requires 0 <= i => GetRetryDelay(e + 1 + i, delays))
  }

  /** The table of a loop started at e before attempt n + 1. */
  function TableAt(t: Table, job: Job, e: nat, n: nat, env: nat -> Weather): Table {
    if n == e then t else Save(t, job, Retrying, n, Failure(env(n)), None)
  }

  /** The table of a loop whose last send returned at `now`: the last write stands. */
  function TableAfter(t: Table, job: Job, e: nat, max: nat, env: nat -> Weather, now: int): Table
    requires e < max
  {
    var n := Stop(e, max, env);
    if Outcome(e, max, env).Unsaved? then TableAt(t, job, e, n - 1, env) else TurnTable(t, job, max, n, env(n), now)
  }

  /** Saves and publishes succeed on attempts e + 1 to max. */
  ghost predicate StoreIsUp(e: nat, max: nat, env: nat -> Weather) {
    forall n | e < n <= max :: env(n).saveSent.None? && env(n).saveFailure.None? && env(n).publish
  }

  /** With a store that is up the loop stops on the first success or on the last attempt, stores RETRYING
      for every failure before it and then one terminal status, FAILED exactly when no attempt succeeded. */
  lemma WritesWhenUp(e: nat, max: nat, env: nat -> Weather)
    requires e < max && StoreIsUp(e, max, env)
    ensures var n := Stop(e, max, env);
            && (forall k | e < k < n :: env(k).send.Some?)
            && (env(n).send.Some? ==> n == max)
            && Writes(e, max, env) == Retries(e, n - 1) + [StatusWrite(if env(n).send.None? then Sent else Failed, n)]
            && Outcome(e, max, env) == (if forall k | e < k <= max :: env(k).send.Some? then GivenUp else Delivered)
  {
    hide Retries;
    var n := Stop(e, max, env);
    assert env(n).saveSent.None?;
    forall k | e < k < n ensures env(k).send.Some? {
      assert Judge(max, k, env(k)) == Again && env(k).saveSent.None?;
    }
    if env(n).send.None? {
      assert !forall k | e < k <= max :: env(k).send.Some?;
    }
  }

  /** Instants at which the attempts after e start, when the first starts at `at`. */
  function CallAt(at: int, e: nat, i: nat, delays: seq<int>, env: nat -> Weather): int
  {
    if i == 0 then at
    else CallAt(at, e, i - 1, delays, env) + env(e + i).took + Slept(GetRetryDelay(e + i, delays))
  }

  // ---------------------------------------------------------------------------------------
  // The loop

  /** What the loop has done after the n-th attempt failed and was stored. */
  ghost predicate InProgress(e: nat, n: nat, max: int, delays: seq<int>, env: nat -> Weather, at: int,
                             writes: seq<StatusWrite>, sleeps: seq<int>, calls: seq<int>, now: int) {
    && e <= n && writes == Retries(e, n) && sleeps == Delays(e, n, delays) && |calls| == n - e
    && now == CallAt(at, e, n - e, delays, env)
    && (forall i | 0 <= i < |calls| :: calls[i] == CallAt(at, e, i, delays, env))
    && (e < max ==> n < max && Stop(e, max, env) == Stop(n, max, env))
  }

  /** What the loop has done when it ends. */
  ghost predicate Finished(e: nat, max: int, delays: seq<int>, env: nat -> Weather, at: int,
                           writes: seq<StatusWrite>, sleeps: seq<int>, calls: seq<int>) {
    && e < max
    && writes == Writes(e, max, env)
    && sleeps == Delays(e, Stop(e, max, env) - 1, delays)
    && |calls| == Stop(e, max, env) - e
    && forall i | 0 <= i < |calls| :: calls[i] == CallAt(at, e, i, delays, env)
  }

  lemma NothingDone(e: nat, max: int, delays: seq<int>, env: nat -> Weather, now: int)
    ensures InProgress(e, e, max, delays, env, now, [], [], [], now)
  {
  }

  lemma TurnAgain(e: nat, n: nat, max: int, delays: seq<int>, env: nat -> Weather, at: int,
                  writes: seq<StatusWrite>, sleeps: seq<int>, calls: seq<int>, now: int)
    requires InProgress(e, n, max, delays, env, at, writes, sleeps, calls, now)
    requires e < max && Judge(max, n + 1, env(n + 1)) == Again
    ensures n + 1 < max
    ensures var delay := GetRetryDelay(n + 1, delays);
            InProgress(e, n + 1, max, delays, env, at, writes + TurnSaves(n + 1, Again), sleeps + [delay],
                       calls + [now], now + env(n + 1).took + Slept(delay))
  {
    hide GetRetryDelay;
    assert Retries(e, n + 1) == Retries(e, n) + [StatusWrite(Retrying, n + 1)];
    assert Delays(e, n + 1, delays) == Delays(e, n, delays) + [GetRetryDelay(n + 1, delays)];
  }

  lemma TurnLast(e: nat, n: nat, max: int, delays: seq<int>, env: nat -> Weather, at: int,
                 writes: seq<StatusWrite>, sleeps: seq<int>, calls: seq<int>, now: int)
    requires InProgress(e, n, max, delays, env, at, writes, sleeps, calls, now)
    requires e < max && Judge(max, n + 1, env(n + 1)) != Again
    ensures Stop(e, max, env) == n + 1
    ensures Finished(e, max, delays, env, at, writes + TurnSaves(n + 1, Judge(max, n + 1, env(n + 1))), sleeps, calls + [now])
  {
    hide GetRetryDelay, Retries, Delays, CallAt;
  }

  /** Between two calls the loop waits for the delay that the settings give the first of them, the last
      delay of the list when that is short. */
  ghost predicate Paced(e: nat, delays: seq<int>, env: nat -> Weather, sleeps: seq<int>, calls: seq<int>) {
    && |sleeps| == (if calls == [] then 0 else |calls| - 1)
    && forall i | 0 <= i < |sleeps| ::
         && sleeps[i] == (if delays == [] then 0 else if e + i < |delays| then delays[e + i] else delays[|delays| - 1])
         && calls[i + 1] == calls[i] + env(e + 1 + i).took + if sleeps[i] > 0 then sleeps[i] else 0
  }

  lemma Timeline(e: nat, max: int, delays: seq<int>, env: nat -> Weather, at: int,
                 writes: seq<StatusWrite>, sleeps: seq<int>, calls: seq<int>)
    requires Finished(e, max, delays, env, at, writes, sleeps, calls)
    ensures Paced(e, delays, env, sleeps, calls) && calls != [] && calls[0] == at
  {
    hide Stop, Writes, GetRetryDelay;
    assert calls[0] == CallAt(at, e, 0, delays, env);
    forall i | 0 <= i < |sleeps|
      ensures && sleeps[i] == (if delays == [] then 0 else if e + i < |delays| then delays[e + i] else delays[|delays| - 1])
              && calls[i + 1] == calls[i] + env(e + 1 + i).took + if sleeps[i] > 0 then sleeps[i] else 0
    {
      assert calls[i + 1] == CallAt(at, e, i + 1, delays, env) && calls[i] == CallAt(at, e, i, delays, env);
      assert sleeps[i] == GetRetryDelay(e + 1 + i, delays);
    }
  }

  /** Only the job's row has changed, and shows the last of the writes. */
  predicate ShowsLast(was: Table, t: Table, id: JobId, writes: seq<StatusWrite>) {
    && t - {id} == was - {id}
    && (writes == [] ==> t == was)
    && (writes != [] ==> id in t && StatusWrite(t[id].status, t[id].attempts) == writes[|writes| - 1])
  }

  lemma LastShown(t: Table, job: Job, e: nat, max: int, env: nat -> Weather, now: int)
    requires e < max
    ensures ShowsLast(t, TableAfter(t, job, e, max, env, now), job.id, Writes(e, max, env))
  {
    hide Stop;
    var n := Stop(e, max, env);
    if Outcome(e, max, env).Unsaved? && n - 1 > e {
      assert Writes(e, max, env)[n - 2 - e] == StatusWrite(Retrying, n - 1);
    }
  }

  /** A later write of one job's status replaces an earlier one. */
  lemma TurnTableOver(t: Table, job: Job, max: int, e: nat, n: nat, env: nat -> Weather, now: int)
    requires e <= n
    ensures TurnTable(TableAt(t, job, e, n, env), job, max, n + 1, env(n + 1), now)
         == if Judge(max, n + 1, env(n + 1)).Unsaved? then TableAt(t, job, e, n, env)
            else TurnTable(t, job, max, n + 1, env(n + 1), now)
    ensures Judge(max, n + 1, env(n + 1)).Again? ==>
              TableAt(t, job, e, n + 1, env) == TurnTable(t, job, max, n + 1, env(n + 1), now)
  {
  }

  lemma NothingShown(t: Table, id: JobId, e: nat, delays: seq<int>, env: nat -> Weather)
    ensures ShowsLast(t, t, id, []) && Paced(e, delays, env, [], [])
  {
  }

  lemma FirstTable(t: Table, job: Job, e: nat, env: nat -> Weather)
    ensures TableAt(t, job, e, e, env) == t
  {
  }

  // ---------------------------------------------------------------------------------------
  // The loop's actions in the protocol

  lemma TakeAttempt(world: World, start: Consumer, run: seq<Action>, s: Consumer)
    returns (run': seq<Action>, s': Consumer)
    requires Reaches(world, start, run, s) && s.pc.Looping?
    ensures Reaches(world, start, run', s')
    ensures s'.position == s.position && s'.committed == s.committed && s'.store.table == s.store.table
    ensures var j, calls := s.pc.job.id, s.pc.attempts < world.c.maxAttempts;
            && s'.pc == (if calls then Sending(s.pc.job, s.pc.attempts + 1) else Done)
            && LedgerOf(s'.store.trace, j)
            == LedgerOf(s.store.trace, j).(called := JobsCalled(s.store.trace) + if calls then [j] else [])
  {
    hide Reaches, Prepare, ClaimJob, Halt, Save, DlqEntries, SavesOf, JobsCalled;
    LedgerAfter(s.store, Act(world.c, 0, s.store.table, s.pc, Attempt), s.pc.job.id);
    run', s' := Take(world, start, run, s, Attempt);
  }

  /** Without budget the loop is left as it is entered. */
  lemma LeaveLoop(world: World, start: Consumer, run: seq<Action>, s: Consumer, table: Table, entries: seq<DlqEntry>,
                  calls: seq<Call>)
    returns (run': seq<Action>, s': Consumer)
    requires Reaches(world, start, run, s) && s.pc.Looping? && s.pc.attempts >= world.c.maxAttempts
    requires Mirrors(s, table, entries, calls)
    ensures Reaches(world, start, run', s') && Mirrors(s', table, entries, calls)
    ensures s'.position == s.position && s'.committed == s.committed && s'.pc == Done
    ensures SavesOf(s'.store.trace, s.pc.job.id) == SavesOf(s.store.trace, s.pc.job.id)
  {
    hide Reaches, DlqEntries, SavesOf, JobsCalled;
    run', s' := TakeAttempt(world, start, run, s);
  }

  lemma TakeSendReturns(world: World, start: Consumer, run: seq<Action>, s: Consumer)
    returns (run': seq<Action>, s': Consumer)
    requires Reaches(world, start, run, s) && s.pc.Sending?
    ensures Reaches(world, start, run', s')
    ensures s'.position == s.position && s'.committed == s.committed && s'.store.table == s.store.table
    ensures LedgerOf(s'.store.trace, s.pc.job.id) == LedgerOf(s.store.trace, s.pc.job.id)
    ensures var error := world.weather(s.committed).job.attempts(s.pc.attempts).send;
            s'.pc == if error.None? then SavingSent(s.pc.job, s.pc.attempts)
                     else SavingFailure(s.pc.job, s.pc.attempts, error.value)
  {
    hide Reaches, Prepare, ClaimJob, Halt, Save, DlqEntries, SavesOf, JobsCalled;
    var a := SendReturns(world.weather(s.committed).job.attempts(s.pc.attempts).send);
    LedgerAfter(s.store, Act(world.c, 0, s.store.table, s.pc, a), s.pc.job.id);
    run', s' := Take(world, start, run, s, a);
  }

  lemma TakeSaveSent(world: World, start: Consumer, run: seq<Action>, s: Consumer, now: int)
    returns (run': seq<Action>, s': Consumer)
    requires Reaches(world, start, run, s) && s.pc.SavingSent?
    ensures Reaches(world, start, run', s')
    ensures s'.position == s.position && s'.committed == s.committed
    ensures var error, l := world.weather(s.committed).job.attempts(s.pc.attempts).saveSent, LedgerOf(s.store.trace, s.pc.job.id);
            if error.None? then
              && s'.pc == Done && s'.store.table == Save(s.store.table, s.pc.job, Sent, s.pc.attempts, None, Some(now))
              && LedgerOf(s'.store.trace, s.pc.job.id) == l.(saves := l.saves + [StatusWrite(Sent, s.pc.attempts)])
            else
              && s'.pc == SavingFailure(s.pc.job, s.pc.attempts, error.value) && s'.store.table == s.store.table
              && LedgerOf(s'.store.trace, s.pc.job.id) == l
  {
    hide Reaches, Prepare, ClaimJob, Halt, Save, DlqEntries, SavesOf, JobsCalled;
    var a := SaveStatus(now, world.weather(s.committed).job.attempts(s.pc.attempts).saveSent);
    LedgerAfter(s.store, Act(world.c, 0, s.store.table, s.pc, a), s.pc.job.id);
    run', s' := Take(world, start, run, s, a);
  }

  lemma TakeSaveFailure(world: World, start: Consumer, run: seq<Action>, s: Consumer, now: int)
    returns (run': seq<Action>, s': Consumer)
    requires Reaches(world, start, run, s) && s.pc.SavingFailure?
    ensures Reaches(world, start, run', s')
    ensures s'.position == s.position && s'.committed == s.committed
    ensures var n, l := s.pc.attempts, LedgerOf(s.store.trace, s.pc.job.id);
            var last := n >= world.c.maxAttempts;
            var status := if last then Failed else Retrying;
            if world.weather(s.committed).job.attempts(n).saveFailure.None? then
              && s'.pc == (if last then PublishingFinal(s.pc.job, n) else Looping(s.pc.job, n))
              && s'.store.table == Save(s.store.table, s.pc.job, status, n, Some(s.pc.error), None)
              && LedgerOf(s'.store.trace, s.pc.job.id) == l.(saves := l.saves + [StatusWrite(status, n)])
            else
              && s'.pc == PublishingEscape(s.pc.job, false) && s'.store.table == s.store.table
              && LedgerOf(s'.store.trace, s.pc.job.id) == l
  {
    hide Reaches, Prepare, ClaimJob, Halt, Save, DlqEntries, SavesOf, JobsCalled;
    var a := SaveStatus(now, world.weather(s.committed).job.attempts(s.pc.attempts).saveFailure);
    LedgerAfter(s.store, Act(world.c, 0, s.store.table, s.pc, a), s.pc.job.id);
    run', s' := Take(world, start, run, s, a);
  }

  lemma TakePublishFinal(world: World, start: Consumer, run: seq<Action>, s: Consumer)
    returns (run': seq<Action>, s': Consumer)
    requires Reaches(world, start, run, s) && s.pc.PublishingFinal?
    ensures Reaches(world, start, run', s')
    ensures s'.position == s.position && s'.committed == s.committed && s'.store.table == s.store.table
    ensures var ok, l := world.weather(s.committed).job.attempts(s.pc.attempts).publish, LedgerOf(s.store.trace, s.pc.job.id);
            && s'.pc == (if ok then Done else PublishingEscape(s.pc.job, true))
            && LedgerOf(s'.store.trace, s.pc.job.id) == l.(entries := l.entries + if ok then [OfJob(s.pc.job.id)] else [])
  {
    hide Reaches, Prepare, ClaimJob, Halt, Save, DlqEntries, SavesOf, JobsCalled;
    var a := Publish(world.weather(s.committed).job.attempts(s.pc.attempts).publish);
    LedgerAfter(s.store, Act(world.c, 0, s.store.table, s.pc, a), s.pc.job.id);
    run', s' := Take(world, start, run, s, a);
  }

  /** The turn in the protocol, its send returning at `now`. */
  lemma TurnRun(world: World, s: Consumer, now: int) returns (run: seq<Action>, end: Consumer)
    requires s.pc.Looping? && s.pc.attempts < world.c.maxAttempts
    ensures Reaches(world, s, run, end)
    ensures end.position == s.position && end.committed == s.committed
    ensures var job, n := s.pc.job, s.pc.attempts + 1;
            var w := world.weather(s.committed).job.attempts(n);
            var verdict := Judge(world.c.maxAttempts, n, w);
            && end.pc == TurnPc(job, n, verdict)
            && end.store.table == TurnTable(s.store.table, job, world.c.maxAttempts, n, w, now)
            && LedgerOf(end.store.trace, job.id) == TurnLedger(LedgerOf(s.store.trace, job.id), job, n, verdict)
  {
    hide Obeys, ConsumerStep, Reaches, DlqEntries, SavesOf, JobsCalled, Save;
    run, end := [], s;
    Nothing(world, s);
    run, end := TakeAttempt(world, s, run, end);
    run, end := TakeSendReturns(world, s, run, end);
    if end.pc.SavingSent? {
      run, end := TakeSaveSent(world, s, run, end, now);
    }
    if end.pc.SavingFailure? {
      run, end := TakeSaveFailure(world, s, run, end, now);
    }
    if end.pc.PublishingFinal? {
      run, end := TakePublishFinal(world, s, run, end);
    }
  }

  // ---------------------------------------------------------------------------------------
  // The program

  /** One turn of the loop after its counter was advanced to n: send, save, and on the last attempt publish. */
  method AttemptOnce(job: Job, n: nat, maxAttempts: int, weather: Weather, sender: Sender,
                     repo: NotificationDeliveryRepository, dlq: DlqPublisher, clock: Clock,
                     ghost world: World, ghost s: Consumer)
    returns (verdict: Verdict, ghost run: seq<Action>, ghost end: Consumer)
    requires world.c.maxAttempts == maxAttempts && 1 <= n <= maxAttempts
    requires world.weather(s.committed).job.attempts(n) == weather
    requires s.pc == Looping(job, n - 1) && Mirrors(s, repo.table, dlq.entries, sender.calls)
    modifies sender, repo, dlq, clock
    // the turn is the run of the protocol that the weather prescribes
    ensures Reaches(world, s, run, end) && Mirrors(end, repo.table, dlq.entries, sender.calls)
    ensures end.position == s.position && end.committed == s.committed && end.pc == TurnPc(job, n, verdict)
    // and has one call, the writes and the entry of its verdict
    ensures verdict == Judge(maxAttempts, n, weather)
    ensures VerdictExact(maxAttempts, n, weather, verdict)
    ensures sender.calls == old(sender.calls) + [Call(job, old(clock.now))]
    ensures repo.table == TurnTable(old(repo.table), job, maxAttempts, n, weather, clock.now)
    ensures RowExact(old(repo.table), repo.table, job, n, weather, verdict, clock.now)
    ensures dlq.entries == old(dlq.entries) + if verdict.GivenUp? then [OfJob(job.id)] else []
    ensures SavesOf(end.store.trace, job.id) == SavesOf(s.store.trace, job.id) + TurnSaves(n, verdict)
    ensures clock.now == old(clock.now) + weather.took
  {
    hide Obeys, ConsumerStep, Reaches, DlqEntries, SavesOf, JobsCalled, Save, JobIds;
    JobIdsNext(sender.calls, Call(job, clock.now));
    var error := sender.Send(job, weather, clock);
    run, end := TurnRun(world, s, clock.now);
    if error.None? {
      error := weather.saveSent;
      if error.None? {
        repo.SaveStatus(job, Sent, n, None, Some(clock.now));
        return Delivered, run, end;
      }
    }

    var isLast := n >= maxAttempts;
    if weather.saveFailure.Some? {
      return Unsaved, run, end;
    }
    repo.SaveStatus(job, if isLast then Failed else Retrying, n, error, None);
    if !isLast {
      return Again, run, end;
    }

    if !weather.publish {
      return Unpublished, run, end;
    }
    dlq.Publish(OfJob(job.id));
    return GivenUp, run, end;
  }

  method AttemptWithRetries(job: Job, existingAttempts: nat, maxAttempts: int, delays: seq<int>, env: nat -> Weather,
                            sender: Sender, repo: NotificationDeliveryRepository, dlq: DlqPublisher, clock: Clock,
                            ghost world: World, ghost s: Consumer)
    returns (raised: bool, writes: seq<StatusWrite>, sleeps: seq<int>, calls: seq<int>,
             ghost run: seq<Action>, ghost end: Consumer)
    requires world.c.maxAttempts == maxAttempts && world.weather(s.committed).job.attempts == env
    requires s.pc == Looping(job, existingAttempts) && Mirrors(s, repo.table, dlq.entries, sender.calls)
    modifies sender, repo, dlq, clock
    // the loop is the run of the protocol that the weather prescribes, from the loop head to its exit;
    // `writes` and `calls` are what its history holds
    ensures Reaches(world, s, run, end) && Mirrors(end, repo.table, dlq.entries, sender.calls)
    ensures end.position == s.position && end.committed == s.committed
    ensures SavesOf(end.store.trace, job.id) == SavesOf(s.store.trace, job.id) + writes
    ensures sender.calls == old(sender.calls) + CallsFor(job, calls)
    // without a budget it does nothing
    ensures existingAttempts >= maxAttempts ==>
              && !raised && end.pc == Done && writes == [] && sleeps == [] && calls == []
              && repo.table == old(repo.table) && dlq.entries == old(dlq.entries) && clock.now == old(clock.now)
    // and with one it writes, publishes, sleeps, calls and raises exactly as it should, whatever fails
    ensures existingAttempts < maxAttempts ==>
              var n, verdict := Stop(existingAttempts, maxAttempts, env), Outcome(existingAttempts, maxAttempts, env);
              && (raised <==> verdict.Unsaved? || verdict.Unpublished?)
              && end.pc == TurnPc(job, n, verdict)
              && writes == Writes(existingAttempts, maxAttempts, env)
              && sleeps == Delays(existingAttempts, n - 1, delays)
              && repo.table == TableAfter(old(repo.table), job, existingAttempts, maxAttempts, env, clock.now)
              && dlq.entries == old(dlq.entries) + TurnEntries(job, verdict)
              && |calls| == n - existingAttempts
              && clock.now == calls[|calls| - 1] + env(n).took
    ensures forall i | 0 <= i < |calls| :: calls[i] == CallAt(old(clock.now), existingAttempts, i, delays, env)
    // between the calls it waits as configured, and the row shows the last write
    ensures Paced(existingAttempts, delays, env, sleeps, calls) && (calls != [] ==> calls[0] == old(clock.now))
    ensures ShowsLast(old(repo.table), repo.table, job.id, writes)
  {
    hide Obeys, ConsumerStep, Reaches, DlqEntries, SavesOf, JobsCalled, GetRetryDelay, InProgress, TurnTable, TableAt, Judge;
    hide Writes, Delays, CallAt, CallsFor, Stop, Paced, ShowsLast, JobIds, Mirrors,
         VerdictExact, RowExact;
    NothingShown(old(repo.table), job.id, existingAttempts, delays, env);
    var attempts := existingAttempts;
    raised, writes, sleeps, calls := false, [], [], [];
    run, end := [], s;
    Nothing(world, s);
    NothingDone(existingAttempts, maxAttempts, delays, env, clock.now);
    CallsForNext(job, [], clock.now);
    FirstTable(old(repo.table), job, existingAttempts, env);
    while attempts < maxAttempts
      invariant existingAttempts <= attempts
      invariant existingAttempts < maxAttempts ==> attempts < maxAttempts
      invariant existingAttempts >= maxAttempts ==> attempts == existingAttempts && calls == [] && writes == [] && sleeps == []
      invariant existingAttempts >= maxAttempts ==> repo.table == old(repo.table) && clock.now == old(clock.now)
      invariant Reaches(world, s, run, end) && end.pc == Looping(job, attempts)
      invariant Mirrors(end, repo.table, dlq.entries, sender.calls)
      invariant end.position == s.position && end.committed == s.committed
      invariant dlq.entries == old(dlq.entries) && !raised
      invariant sender.calls == old(sender.calls) + CallsFor(job, calls)
      invariant SavesOf(end.store.trace, job.id) == SavesOf(s.store.trace, job.id) + writes
      invariant repo.table == TableAt(old(repo.table), job, existingAttempts, attempts, env)
      invariant InProgress(existingAttempts, attempts, maxAttempts, delays, env, old(clock.now), writes, sleeps, calls, clock.now)
      decreases maxAttempts - attempts
    {
      ghost var n, before, done, called := attempts, clock.now, writes, calls;
      attempts := attempts + 1;
      CallsForNext(job, calls, clock.now);
      calls := calls + [clock.now];
      var verdict;
      ghost var mid, turn := end, [];
      verdict, turn, end := AttemptOnce(job, attempts, maxAttempts, env(attempts), sender, repo, dlq, clock, world, mid);
      Joined(world, s, run, mid, turn, end);
      run := run + turn;
      TurnTableOver(old(repo.table), job, maxAttempts, existingAttempts, n, env, clock.now);
      writes := writes + TurnSaves(attempts, verdict);
      if verdict != Again {
        TurnLast(existingAttempts, n, maxAttempts, delays, env, old(clock.now), done, sleeps, called, before);
        Timeline(existingAttempts, maxAttempts, delays, env, old(clock.now), writes, sleeps, calls);
        LastShown(old(repo.table), job, existingAttempts, maxAttempts, env, clock.now);
        raised := verdict == Unsaved || verdict == Unpublished;
        return;
      }
      TurnAgain(existingAttempts, n, maxAttempts, delays, env, old(clock.now), done, sleeps, called, before);
      var delay := GetRetryDelay(attempts, delays);
      sleeps := sleeps + [delay];
      clock.Sleep(delay);
    }
    run, end := LeaveLoop(world, s, run, end, repo.table, dlq.entries, sender.calls);
  }
}
