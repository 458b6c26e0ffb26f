/** handle_job and the consumer around it, as the program runs them, tied step by step to the protocol. */
module JobProcessor {
  import opened Delivery
  import opened WorkerProtocol
  import opened History
  import opened SingleConsumer
  import opened AtLeastOnce
  import opened Environment
  import opened RetryEngine

  // ---------------------------------------------------------------------------------------
  // What handling one job should do

  function Min(a: int, b: int): int {
    if a < b then a else b
  }

  function Max(a: int, b: int): int {
    if a < b then b else a
  }

  /** The instant until which a job checked at `now` waits: send_after, bounded by the largest delay. */
  function ReadyAt(job: Job, now: int, maxSendDelay: int): int {
    if job.sendAfter.None? then now
    else Max(now, Min(job.sendAfter.value, now + maxSendDelay))
  }

  /** The first attempt of a job that arrives at `at`: after the read, the wait and the claim. */
  function FirstCall(job: Job, at: int, maxSendDelay: int, w: JobWeather): int {
    ReadyAt(job, at + w.readTook, maxSendDelay) + w.claimTook
  }

  /** How everything before the retry loop ends, for a job that arrives at `at`. */
  datatype Preparation = Raises | Skips | Expires | Loses | Wins

  function Prepares(c: Config, t: Table, job: Job, at: int, maxSendDelay: int, w: JobWeather): Preparation {
    if !w.readOk then Raises
    else if ShouldSkip(c, Lookup(t, job.id)) then Skips
    else if IsExpired(job, at + w.readTook) then if w.saveExpired.Some? then Raises else Expires
    else if !w.insertOk || (job.id in t && !w.updateOk) then Raises
    else if AtomicClaim(t, job, ReadyAt(job, at + w.readTook, maxSendDelay), c.staleAfter).claimed then Wins
    else Loses
  }

  predicate Late(job: Job, at: int, w: JobWeather) {
    job.expiresAt.Some? && at + w.readTook > job.expiresAt.value
  }

  /** The preparation in the fields of job, row and clock: SENT rows and final rows without budget left are
      skipped, late jobs expire, and the claim is won for a new job, a RETRYING row, and a PROCESSING row
      whose lease is missing or older than allowed when the wait ends. */
  lemma PreparationExact(c: Config, t: Table, job: Job, at: int, maxSendDelay: int, w: JobWeather)
    ensures var p, checked := Prepares(c, t, job, at, maxSendDelay, w), at + w.readTook;
            var skipped := job.id in t && (|| t[job.id].status == Sent
                                           || (t[job.id].status == Expired && t[job.id].attempts >= c.maxAttempts)
                                           || (t[job.id].status == Failed && t[job.id].attempts >= c.maxAttempts));
            var fails := if Late(job, at, w) then w.saveExpired.Some? else !w.insertOk || (job.id in t && !w.updateOk);
            && (p.Skips? <==> w.readOk && skipped)
            && (p.Expires? <==> w.readOk && !skipped && Late(job, at, w) && w.saveExpired.None?)
            && (p.Raises? <==> !w.readOk || (!skipped && fails))
            && (p.Wins? <==>
                  && w.readOk && !Late(job, at, w) && w.insertOk && (job.id in t ==> w.updateOk)
                  && (job.id in t ==>
                        var row := t[job.id];
                        var ready := if job.sendAfter.None? then checked
                                     else Max(checked, Min(job.sendAfter.value, checked + maxSendDelay));
                        || row.status == Retrying
                        || (row.status == Processing
                            && (row.startedAt.None? || ready - row.startedAt.value > c.staleAfter))))
  {
  }

  /** The job's row alone has changed, to EXPIRED with the count it had. */
  predicate MarkedExpired(was: Table, t: Table, job: Job) {
    && t - {job.id} == was - {job.id} && job.id in t
    && t[job.id].status == Expired && t[job.id].attempts == StoredAttempts(was, job.id)
    && t[job.id].error == Some("Notification expired") && t[job.id].sentAt == None && t[job.id].startedAt == None
  }

  function PreparedPc(job: Job, attempts: nat, p: Preparation): Pc {
    match p
    case Raises => PublishingEscape(job, false)
    case Loses => Busy(job)
    case Wins => Looping(job, attempts)
    case _ => Done
  }

  function PreparedTable(c: Config, t: Table, job: Job, ready: int, p: Preparation): Table {
    match p
    case Expires => Save(t, job, Expired, StoredAttempts(t, job.id), Some("Notification expired"), None)
    case Wins => AtomicClaim(t, job, ready, c.staleAfter).table
    case _ => t
  }

  function PreparedSaves(attempts: nat, p: Preparation): seq<StatusWrite> {
    if p.Expires? then [StatusWrite(Expired, attempts)] else []
  }

  /** What one call of handle_job comes to: whether it raises, its status writes, its DLQ entries, its sends. */
  datatype JobResult = JobResult(raised: bool, saves: seq<StatusWrite>, entries: seq<DlqEntry>, calls: nat)

  function HandledJob(c: Config, t: Table, job: Job, at: int, maxSendDelay: int, w: JobWeather): JobResult {
    var p, e := Prepares(c, t, job, at, maxSendDelay, w), StoredAttempts(t, job.id);
    if p.Wins? && e < c.maxAttempts then
      var verdict := Outcome(e, c.maxAttempts, w.attempts);
      JobResult(verdict.Unsaved? || verdict.Unpublished?, Writes(e, c.maxAttempts, w.attempts),
                TurnEntries(job, verdict), Stop(e, c.maxAttempts, w.attempts) - e)
    else JobResult(p.Raises?, PreparedSaves(e, p), [], 0)
  }

  /** The table it leaves, when the last send, if any, returned at `now`. */
  function HandledTable(c: Config, t: Table, job: Job, at: int, maxSendDelay: int, w: JobWeather, now: int): Table {
    var p, e := Prepares(c, t, job, at, maxSendDelay, w), StoredAttempts(t, job.id);
    var prepared := PreparedTable(c, t, job, ReadyAt(job, at + w.readTook, maxSendDelay), p);
    if p.Wins? && e < c.maxAttempts then TableAfter(prepared, job, e, c.maxAttempts, w.attempts, now) else prepared
  }

  /** The instant at which it ends. */
  function HandledAt(c: Config, t: Table, job: Job, at: int, maxSendDelay: int, delays: seq<int>, w: JobWeather): int {
    var p, e, first := Prepares(c, t, job, at, maxSendDelay, w), StoredAttempts(t, job.id), FirstCall(job, at, maxSendDelay, w);
    if p.Wins? && e < c.maxAttempts then
      var n := Stop(e, c.maxAttempts, w.attempts);
      CallAt(first, e, n - e - 1, delays, w.attempts) + w.attempts(n).took
    else if w.readOk && !ShouldSkip(c, Lookup(t, job.id)) && !IsExpired(job, at + w.readTook) then first
    else at + w.readTook
  }

  /** The time that the attempts e + 1 to n and the delays after them take. */
  function Elapsed(e: nat, n: nat, delays: seq<int>, env: nat -> Weather): nat {
    if n <= e then 0 else Elapsed(e, n - 1, delays, env) + env(n).took + Slept(GetRetryDelay(n, delays))
  }

  lemma {:induction false} CallElapsed(at: int, e: nat, i: nat, delays: seq<int>, env: nat -> Weather)
    ensures CallAt(at, e, i, delays, env) == at + Elapsed(e, e + i, delays, env)
  {
    hide GetRetryDelay;
    if i > 0 {
      CallElapsed(at, e, i - 1, delays, env);
    }
  }

  lemma {:induction false} ElapsedGrows(e: nat, n: nat, m: nat, delays: seq<int>, env: nat -> Weather)
    requires n <= m
    ensures Elapsed(e, n, delays, env) <= Elapsed(e, m, delays, env) <= Elapsed(0, m, delays, env)
    decreases m - n, m
  {
    hide GetRetryDelay;
    if n < m {
      ElapsedGrows(e, n, m - 1, delays, env);
    } else if e < m {
      ElapsedGrows(e, m - 1, m - 1, delays, env);
    }
  }

  /** The longest that one job can take: the read, the largest wait, the claim, and all the attempts with
      all their delays. */
  function Longest(c: Config, maxSendDelay: int, delays: seq<int>, w: JobWeather): nat {
    w.readTook + Slept(maxSendDelay) + w.claimTook + Elapsed(0, Slept(c.maxAttempts), delays, w.attempts)
  }

  /** The longest that the jobs at some offsets can take, one after the other. */
  function LongestOf(c: Config, maxSendDelay: int, delays: seq<int>, weather: nat -> MessageWeather, from: nat, to: nat): nat {
    if to <= from then 0
    else LongestOf(c, maxSendDelay, delays, weather, from, to - 1) + Longest(c, maxSendDelay, delays, weather(to - 1).job)
  }

  lemma LongestNext(c: Config, maxSendDelay: int, delays: seq<int>, weather: nat -> MessageWeather, from: nat, to: nat)
    requires from <= to
    ensures LongestOf(c, maxSendDelay, delays, weather, from, to + 1)
         == LongestOf(c, maxSendDelay, delays, weather, from, to) + Longest(c, maxSendDelay, delays, weather(to).job)
    ensures LongestOf(c, maxSendDelay, delays, weather, from, from) == 0
  {
    hide Longest;
  }

  lemma HandledInTime(c: Config, t: Table, job: Job, at: int, maxSendDelay: int, delays: seq<int>, w: JobWeather)
    ensures at <= HandledAt(c, t, job, at, maxSendDelay, delays, w) <= at + Longest(c, maxSendDelay, delays, w)
    ensures FirstCall(job, at, maxSendDelay, w) >= at
  {
    hide Prepares, Stop, ShouldSkip, CallAt, IsExpired, GetRetryDelay;
    var e := StoredAttempts(t, job.id);
    if Prepares(c, t, job, at, maxSendDelay, w).Wins? && e < c.maxAttempts {
      var n, first := Stop(e, c.maxAttempts, w.attempts), FirstCall(job, at, maxSendDelay, w);
      CallElapsed(first, e, n - e - 1, delays, w.attempts);
      ElapsedGrows(e, n, c.maxAttempts, delays, w.attempts);
    }
  }

  /** New calls have been added, at instants from lo to hi. */
  ghost predicate CallsAdded(was: seq<Call>, calls: seq<Call>, lo: int, hi: int) {
    was <= calls && lo <= hi && forall k | |was| <= k < |calls| :: lo <= calls[k].at <= hi
  }

  lemma LoopCallsAdded(was: seq<Call>, job: Job, calls: seq<int>, first: int, e: nat, delays: seq<int>, env: nat -> Weather,
                       lo: int, hi: int)
    requires forall i | 0 <= i < |calls| :: calls[i] == CallAt(first, e, i, delays, env)
    requires lo <= first && lo <= hi && (calls != [] ==> calls[|calls| - 1] <= hi)
    ensures CallsAdded(was, was + CallsFor(job, calls), lo, hi)
    ensures calls != [] ==> calls[0] == first
  {
    hide Elapsed;
    forall i | 0 <= i < |calls| ensures lo <= calls[i] <= hi {
      var last := |calls| - 1;
      CallElapsed(first, e, i, delays, env);
      CallElapsed(first, e, last, delays, env);
      ElapsedGrows(e, e + i, e + last, delays, env);
    }
  }

  lemma NoneAdded(calls: seq<Call>, now: int)
    ensures CallsAdded(calls, calls, now, now)
  {
  }

  lemma CallsAddedTwice(was: seq<Call>, mid: seq<Call>, calls: seq<Call>, lo: int, between: int, hi: int)
    requires CallsAdded(was, mid, lo, between) && CallsAdded(mid, calls, between, hi)
    ensures CallsAdded(was, calls, lo, hi)
  {
  }

  /** Late jobs and delivered ones, in the terms of the preparation. */
  lemma HandledWhenLate(c: Config, t: Table, job: Job, at: int, maxSendDelay: int, w: JobWeather)
    ensures var p := Prepares(c, t, job, at, maxSendDelay, w);
            var late := Late(job, at, w) && w.readOk && w.saveExpired.None?;
            && (p.Wins? ==> !Late(job, at, w))
            && (late && (job.id in t ==> !t[job.id].status.Terminal()) ==> p.Expires?)
            && (job.id in t && t[job.id].status == Sent ==> !p.Wins? && !p.Expires? && (p.Raises? <==> !w.readOk))
    ensures !Late(job, at, w) && job.expiresAt.Some? ==> at + w.readTook <= job.expiresAt.value
    ensures var checked := at + w.readTook;
            FirstCall(job, at, maxSendDelay, w) == w.claimTook
              + if job.sendAfter.None? then checked else Max(checked, Min(job.sendAfter.value, checked + maxSendDelay))
  {
    PreparationExact(c, t, job, at, maxSendDelay, w);
  }

  lemma WinsAtClaim(c: Config, t: Table, job: Job, at: int, maxSendDelay: int, w: JobWeather)
    ensures Prepares(c, t, job, at, maxSendDelay, w).Wins? ==>
              w.readOk && !ShouldSkip(c, Lookup(t, job.id)) && !IsExpired(job, at + w.readTook)
  {
  }

  /** A job that does not come to its loop. */
  lemma HandledBefore(c: Config, t: Table, job: Job, at: int, maxSendDelay: int, delays: seq<int>, w: JobWeather, now: int,
                      was: seq<Call>)
    requires !Prepares(c, t, job, at, maxSendDelay, w).Wins?
    requires now == if w.readOk && !ShouldSkip(c, Lookup(t, job.id)) && !IsExpired(job, at + w.readTook)
                    then FirstCall(job, at, maxSendDelay, w) else at + w.readTook
    ensures var p, e := Prepares(c, t, job, at, maxSendDelay, w), StoredAttempts(t, job.id);
            && HandledJob(c, t, job, at, maxSendDelay, w) == JobResult(p.Raises?, PreparedSaves(e, p), [], 0)
            && HandledTable(c, t, job, at, maxSendDelay, w, now)
            == PreparedTable(c, t, job, ReadyAt(job, at + w.readTook, maxSendDelay), p)
    ensures HandledAt(c, t, job, at, maxSendDelay, delays, w) == now
    ensures was + CallsFor(job, []) == was && CallsAdded(was, was, at, now)
  {
    hide Prepares, PreparedTable;
    HandledInTime(c, t, job, at, maxSendDelay, delays, w);
  }

  /** A job whose loop is entered on the table `entered` and leaves it as `after` at `now`. */
  lemma HandledInLoop(c: Config, t: Table, job: Job, at: int, maxSendDelay: int, delays: seq<int>, w: JobWeather,
                      entered: Table, after: Table, now: int, was: seq<Call>, calls: seq<int>, writes: seq<StatusWrite>)
    requires Prepares(c, t, job, at, maxSendDelay, w).Wins? && entered - {job.id} == t - {job.id}
    requires entered == PreparedTable(c, t, job, ReadyAt(job, at + w.readTook, maxSendDelay), Wins)
    requires ShowsLast(entered, after, job.id, writes)
    requires var e, first := StoredAttempts(t, job.id), FirstCall(job, at, maxSendDelay, w);
             && (forall i | 0 <= i < |calls| :: calls[i] == CallAt(first, e, i, delays, w.attempts))
             && (e >= c.maxAttempts ==> calls == [] && writes == [] && after == entered && now == first)
             && (e < c.maxAttempts ==>
                   && writes == Writes(e, c.maxAttempts, w.attempts) && |calls| == Stop(e, c.maxAttempts, w.attempts) - e
                   && after == TableAfter(entered, job, e, c.maxAttempts, w.attempts, now)
                   && now == calls[|calls| - 1] + w.attempts(Stop(e, c.maxAttempts, w.attempts)).took)
    ensures var e, verdict := StoredAttempts(t, job.id), if StoredAttempts(t, job.id) < c.maxAttempts
                                 then Outcome(StoredAttempts(t, job.id), c.maxAttempts, w.attempts) else Delivered;
            HandledJob(c, t, job, at, maxSendDelay, w)
            == JobResult(verdict.Unsaved? || verdict.Unpublished?, writes, TurnEntries(job, verdict), |calls|)
    ensures HandledTable(c, t, job, at, maxSendDelay, w, now) == after && after - {job.id} == t - {job.id}
    ensures HandledAt(c, t, job, at, maxSendDelay, delays, w) == now
    ensures CallsAdded(was, was + CallsFor(job, calls), at, now)
    ensures calls != [] ==> calls[0] == FirstCall(job, at, maxSendDelay, w)
  {
    hide Prepares, PreparedTable, TableAfter, Writes, Outcome, Stop, FirstCall, CallAt, CallsFor, CallsAdded;
    assert HandledAt(c, t, job, at, maxSendDelay, delays, w) == now by { WinsAtClaim(c, t, job, at, maxSendDelay, w); }
    HandledInTime(c, t, job, at, maxSendDelay, delays, w);
    LoopCallsAdded(was, job, calls, FirstCall(job, at, maxSendDelay, w), StoredAttempts(t, job.id), delays, w.attempts, at, now);
  }

  /** The handler answers a raised job with a DLQ entry. */
  function EscapeEntries(raised: bool, published: bool, entry: DlqEntry): seq<DlqEntry> {
    if raised && published then [entry] else []
  }

  // ---------------------------------------------------------------------------------------
  // The actions in the protocol

  lemma TakeReceive(world: World, s: Consumer) returns (run: seq<Action>, s': Consumer)
    requires s.pc.Idle? && s.position < |world.log| && !world.weather(s.committed).stopped
    ensures Reaches(world, s, run, s')
    ensures s'.position == s.position + 1 && s'.committed == s.committed && s'.store == s.store
    ensures s'.pc == match world.log[s.position] case Valid(job) => Reading(job) case Invalid(raw) => PublishingRaw(raw)
  {
    hide Reaches;
    Nothing(world, s);
    run, s' := Take(world, s, [], s, Receive(world.log[s.position]));
  }

  lemma TakeRead(world: World, start: Consumer, run: seq<Action>, s: Consumer) returns (run': seq<Action>, s': Consumer)
    requires Reaches(world, start, run, s) && s.pc.Reading?
    ensures Reaches(world, start, run', s')
    ensures s'.position == s.position && s'.committed == s.committed && s'.store == s.store
    ensures s'.pc == if !world.weather(s.committed).job.readOk then PublishingEscape(s.pc.job, false)
                     else if ShouldSkip(world.c, Lookup(s.store.table, s.pc.job.id)) then Done
                     else CheckingExpiry(s.pc.job, StoredAttempts(s.store.table, s.pc.job.id))
  {
    hide Reaches, ClaimJob, Loop, Halt, Save;
    run', s' := Take(world, start, run, s, Read(world.weather(s.committed).job.readOk));
  }

  lemma TakeCheckExpiry(world: World, start: Consumer, run: seq<Action>, s: Consumer, now: int)
    returns (run': seq<Action>, s': Consumer)
    requires Reaches(world, start, run, s) && s.pc.CheckingExpiry?
    ensures Reaches(world, start, run', s')
    ensures s'.position == s.position && s'.committed == s.committed && s'.store == s.store
    ensures s'.pc == if IsExpired(s.pc.job, now) then SavingExpired(s.pc.job, s.pc.snap) else Inserting(s.pc.job, s.pc.snap)
  {
    hide Reaches, ClaimJob, Loop, Halt, Save;
    run', s' := Take(world, start, run, s, CheckExpiry(now));
  }

  lemma TakeSaveExpired(world: World, start: Consumer, run: seq<Action>, s: Consumer, now: int)
    returns (run': seq<Action>, s': Consumer)
    requires Reaches(world, start, run, s) && s.pc.SavingExpired?
    ensures Reaches(world, start, run', s')
    ensures s'.position == s.position && s'.committed == s.committed
    ensures var j, l := s.pc.job.id, LedgerOf(s.store.trace, s.pc.job.id);
            if world.weather(s.committed).job.saveExpired.None? then
              && s'.pc == Done
              && s'.store.table == Save(s.store.table, s.pc.job, Expired, s.pc.snap, Some("Notification expired"), None)
              && LedgerOf(s'.store.trace, j) == l.(saves := l.saves + [StatusWrite(Expired, s.pc.snap)])
            else
              && s'.pc == PublishingEscape(s.pc.job, false) && s'.store.table == s.store.table && LedgerOf(s'.store.trace, j) == l
  {
    hide Reaches, ClaimJob, Loop, Halt, Save, DlqEntries, SavesOf, JobsCalled;
    var a := SaveStatus(now, world.weather(s.committed).job.saveExpired);
    LedgerAfter(s.store, Act(world.c, 0, s.store.table, s.pc, a), s.pc.job.id);
    run', s' := Take(world, start, run, s, a);
  }

  lemma TakeInsert(world: World, start: Consumer, run: seq<Action>, s: Consumer, now: int)
    returns (run': seq<Action>, s': Consumer)
    requires Reaches(world, start, run, s) && s.pc.Inserting?
    ensures Reaches(world, start, run', s')
    ensures s'.position == s.position && s'.committed == s.committed
    ensures LedgerOf(s'.store.trace, s.pc.job.id) == LedgerOf(s.store.trace, s.pc.job.id)
    ensures var ok := world.weather(s.committed).job.insertOk;
            && s'.pc == (if !ok then PublishingEscape(s.pc.job, false)
                         else if s.pc.job.id in s.store.table then Updating(s.pc.job, s.pc.snap, now)
                         else Looping(s.pc.job, s.pc.snap))
            && s'.store.table == if ok then InsertClaim(s.store.table, s.pc.job, now) else s.store.table
  {
    hide Reaches, Prepare, Loop, Halt, DlqEntries, SavesOf, JobsCalled;
    var a := Insert(now, world.weather(s.committed).job.insertOk);
    LedgerAfter(s.store, Act(world.c, 0, s.store.table, s.pc, a), s.pc.job.id);
    run', s' := Take(world, start, run, s, a);
  }

  lemma TakeUpdate(world: World, start: Consumer, run: seq<Action>, s: Consumer) returns (run': seq<Action>, s': Consumer)
    requires Reaches(world, start, run, s) && s.pc.Updating?
    ensures Reaches(world, start, run', s')
    ensures s'.position == s.position && s'.committed == s.committed
    ensures LedgerOf(s'.store.trace, s.pc.job.id) == LedgerOf(s.store.trace, s.pc.job.id)
    ensures var ok, staleBefore := world.weather(s.committed).job.updateOk, s.pc.now - world.c.staleAfter;
            && s'.pc == (if !ok then PublishingEscape(s.pc.job, false)
                         else if UpdateMatches(s.store.table, s.pc.job.id, staleBefore) then Looping(s.pc.job, s.pc.snap)
                         else Busy(s.pc.job))
            && s'.store.table == if ok then UpdateClaim(s.store.table, s.pc.job.id, s.pc.now, staleBefore) else s.store.table
  {
    hide Reaches, Prepare, Loop, Halt, UpdateMatches, DlqEntries, SavesOf, JobsCalled;
    var a := Update(world.weather(s.committed).job.updateOk);
    LedgerAfter(s.store, Act(world.c, 0, s.store.table, s.pc, a), s.pc.job.id);
    run', s' := Take(world, start, run, s, a);
  }

  /** Both statements of a claim that no one interrupts. */
  lemma TakeClaim(world: World, start: Consumer, run: seq<Action>, s: Consumer, now: int)
    returns (run': seq<Action>, s': Consumer)
    requires Reaches(world, start, run, s) && s.pc.Inserting?
    ensures Reaches(world, start, run', s')
    ensures s'.position == s.position && s'.committed == s.committed
    ensures LedgerOf(s'.store.trace, s.pc.job.id) == LedgerOf(s.store.trace, s.pc.job.id)
    ensures var w := world.weather(s.committed).job;
            var failed := !w.insertOk || (s.pc.job.id in s.store.table && !w.updateOk);
            var claim := AtomicClaim(s.store.table, s.pc.job, now, world.c.staleAfter);
            if failed then s'.pc == PublishingEscape(s.pc.job, false) && s'.store.table == s.store.table
            else s'.pc == (if claim.claimed then Looping(s.pc.job, s.pc.snap) else Busy(s.pc.job)) && s'.store.table == claim.table
  {
    hide Obeys, ConsumerStep, Reaches, DlqEntries, SavesOf, JobsCalled;
    run', s' := TakeInsert(world, start, run, s, now);
    if s'.pc.Updating? {
      run', s' := TakeUpdate(world, start, run', s');
    }
  }

  lemma TakePublishRaw(world: World, start: Consumer, run: seq<Action>, s: Consumer) returns (run': seq<Action>, s': Consumer)
    requires Reaches(world, start, run, s) && s.pc.PublishingRaw?
    ensures Reaches(world, start, run', s')
    ensures s'.committed == s.committed && s'.store.table == s.store.table
    ensures var ok := world.weather(s.committed).publish;
            && run' == run + [Publish(ok)]
            && s'.pc == (if ok then Done else Idle) && s'.position == (if ok then s.position else s.committed)
            && DlqEntries(s'.store.trace) == DlqEntries(s.store.trace) + EscapeEntries(true, ok, OfRaw(s.pc.raw))
            && JobsCalled(s'.store.trace) == JobsCalled(s.store.trace)
  {
    hide Reaches, Prepare, ClaimJob, Loop, DlqEntries, JobsCalled;
    var a := Publish(world.weather(s.committed).publish);
    DlqEntriesAfter(s.store, Act(world.c, 0, s.store.table, s.pc, a));
    JobsCalledAfter(s.store, Act(world.c, 0, s.store.table, s.pc, a));
    run', s' := Take(world, start, run, s, a);
  }

  lemma TakePublishEscape(world: World, start: Consumer, run: seq<Action>, s: Consumer) returns (run': seq<Action>, s': Consumer)
    requires Reaches(world, start, run, s) && s.pc.PublishingEscape?
    ensures Reaches(world, start, run', s')
    ensures s'.committed == s.committed && s'.store.table == s.store.table
    ensures var ok := world.weather(s.committed).publish;
            && run' == run + [Publish(ok)]
            && s'.pc == (if ok then Done else Idle) && s'.position == (if ok then s.position else s.committed)
            && DlqEntries(s'.store.trace) == DlqEntries(s.store.trace) + EscapeEntries(true, ok, OfJob(s.pc.job.id))
            && JobsCalled(s'.store.trace) == JobsCalled(s.store.trace)
  {
    hide Reaches, Prepare, ClaimJob, Loop, DlqEntries, JobsCalled;
    var a := Publish(world.weather(s.committed).publish);
    DlqEntriesAfter(s.store, Act(world.c, 0, s.store.table, s.pc, a));
    JobsCalledAfter(s.store, Act(world.c, 0, s.store.table, s.pc, a));
    run', s' := Take(world, start, run, s, a);
  }

  /** A commit that raises ends the loop like a crash. */
  lemma TakeCommit(world: World, start: Consumer, run: seq<Action>, s: Consumer) returns (run': seq<Action>, s': Consumer)
    requires Reaches(world, start, run, s) && (s.pc.Done? || s.pc.Busy?)
    ensures Reaches(world, start, run', s')
    ensures run' == run + [if world.weather(s.committed).commit then Commit else Crash]
    ensures s'.store == s.store && s'.pc == Idle
    ensures s'.committed == (if world.weather(s.committed).commit then s.position else s.committed) && s'.position == s'.committed
  {
    hide Reaches, Prepare, ClaimJob, Loop;
    run', s' := Take(world, start, run, s, if world.weather(s.committed).commit then Commit else Crash);
  }

  /** Everything before the retry loop, in the protocol. */
  lemma PrepareRun(world: World, s: Consumer, at: int, maxSendDelay: int) returns (run: seq<Action>, end: Consumer)
    requires s.pc.Reading?
    ensures Reaches(world, s, run, end)
    ensures end.position == s.position && end.committed == s.committed
    ensures var job, t, w := s.pc.job, s.store.table, world.weather(s.committed).job;
            var p, e := Prepares(world.c, t, job, at, maxSendDelay, w), StoredAttempts(t, job.id);
            && end.pc == PreparedPc(job, e, p)
            && end.store.table == PreparedTable(world.c, t, job, ReadyAt(job, at + w.readTook, maxSendDelay), p)
            && LedgerOf(end.store.trace, job.id)
            == LedgerOf(s.store.trace, job.id).(saves := SavesOf(s.store.trace, job.id) + PreparedSaves(e, p))
  {
    hide Obeys, ConsumerStep, Reaches, DlqEntries, SavesOf, JobsCalled, Save, ReadyAt, WorkerProtocol.ShouldSkip;
    var checked := at + world.weather(s.committed).job.readTook;
    run, end := [], s;
    Nothing(world, s);
    run, end := TakeRead(world, s, run, end);
    if end.pc.CheckingExpiry? {
      run, end := TakeCheckExpiry(world, s, run, end, checked);
    }
    if end.pc.SavingExpired? {
      run, end := TakeSaveExpired(world, s, run, end, checked);
    }
    if end.pc.Inserting? {
      run, end := TakeClaim(world, s, run, end, ReadyAt(s.pc.job, checked, maxSendDelay));
    }
  }

  /** What a process keeps of the protocol's invariants. */
  lemma ProcessKeeps(world: World, s: Consumer, run: seq<Action>, end: Consumer)
    requires Reaches(world, s, run, end) && s.pc == Idle && end.pc == Idle
    ensures Invariant(world.c, world.log, s) ==>
              && Invariant(world.c, world.log, end)
              && forall j | IsTerminal(s.store.table, j) ::
                   && IsTerminal(end.store.table, j)
                   && end.store.table[j].status == s.store.table[j].status
                   && end.store.table[j].attempts == s.store.table[j].attempts
    ensures && Invariant(world.c, world.log, s) && AllSettled(world.log, s) && NoLeases(s.store.table)
            && (forall i: nat, n: nat :: world.weather(i).job.attempts(n).saveFailure.None?) ==>
              AllSettled(world.log, end) && NoLeases(end.store.table)
  {
    hide Reaches, ConsumerExec, Invariant, AllSettled, NoLeases;
    ReachesExecutes(world, s, run, end);
    if Invariant(world.c, world.log, s) {
      RunKeepsInvariant(world.c, world.log, s, run);
      forall j | IsTerminal(s.store.table, j)
        ensures IsTerminal(end.store.table, j) && end.store.table[j].status == s.store.table[j].status
        ensures end.store.table[j].attempts == s.store.table[j].attempts
      {
        TerminalAbsorbs(world.c, world.log, s, run, j);
      }
      if AllSettled(world.log, s) && NoLeases(s.store.table)
         && (forall i: nat, n: nat :: world.weather(i).job.attempts(n).saveFailure.None?) {
        ProcessSettles(world, s, run, end);
      }
    }
  }

  // ---------------------------------------------------------------------------------------
  // The program

  method WaitSendAfter(job: Job, maxSendDelay: int, clock: Clock)
    modifies clock
    ensures job.sendAfter.None? ==> clock.now == old(clock.now)
    ensures job.sendAfter.Some? ==>
              clock.now == Max(old(clock.now), Min(job.sendAfter.value, old(clock.now) + maxSendDelay))
  {
    if job.sendAfter.None? {
      return;
    }
    var target := job.sendAfter.value;
    if target <= clock.now {
      return;
    }
    var delay := target - clock.now;
    delay := if delay < maxSendDelay then delay else maxSendDelay;
    if delay <= 0 {
      return;
    }
    clock.Sleep(delay);
  }

  class JobProcessor {
    const maxAttempts: int
    const maxSendDelay: int
    const staleAfter: int
    const delays: seq<int>
    const sender: Sender
    const repo: NotificationDeliveryRepository
    const dlq: DlqPublisher
    const clock: Clock

    constructor (maxAttempts: int, maxSendDelay: int, staleAfter: int, delays: seq<int>, sender: Sender,
                 repo: NotificationDeliveryRepository, dlq: DlqPublisher, clock: Clock)
      ensures this.maxAttempts == maxAttempts && this.staleAfter == staleAfter
      ensures this.maxSendDelay == maxSendDelay && this.delays == delays
      ensures this.sender == sender && this.repo == repo && this.dlq == dlq && this.clock == clock
    {
      this.maxAttempts, this.maxSendDelay, this.staleAfter, this.delays := maxAttempts, maxSendDelay, staleAfter, delays;
      this.sender, this.repo, this.dlq, this.clock := sender, repo, dlq, clock;
    }

    ghost function Settings(): Config {
      Config(maxAttempts, staleAfter)
    }

    ghost predicate Shows(s: Consumer)
      reads repo, dlq, sender
    {
      Mirrors(s, repo.table, dlq.entries, sender.calls)
    }

    method ShouldSkip(existing: Option<Row>) returns (skip: bool)
      ensures skip == WorkerProtocol.ShouldSkip(Settings(), existing)
    {
      if existing.None? {
        return false;
      }
      if existing.value.status == Sent {
        return true;
      }
      if (existing.value.status == Expired || existing.value.status == Failed) && existing.value.attempts >= maxAttempts {
        return true;
      }
      return false;
    }

    /** Everything before the retry loop. `claimed` says whether the loop is entered. */
    method PrepareAndClaim(job: Job, w: JobWeather, ghost world: World, ghost s: Consumer)
      returns (raised: bool, claimed: bool, attempts: nat, ghost run: seq<Action>, ghost end: Consumer)
      requires world.c == Settings() && world.weather(s.committed).job == w && s.pc == Reading(job) && Shows(s)
      modifies repo, clock
      // it is the run of the protocol that the weather prescribes
      ensures Reaches(world, s, run, end) && Shows(end)
      ensures end.position == s.position && end.committed == s.committed
      // the claim is won, or an error raised, exactly when the row, the instants and the weather say so
      ensures var p := Prepares(Settings(), old(repo.table), job, old(clock.now), maxSendDelay, w);
              var e := StoredAttempts(old(repo.table), job.id);
              && (claimed <==> p.Wins?) && (raised <==> p.Raises?)
              && end.pc == PreparedPc(job, e, p)
              && repo.table == PreparedTable(Settings(), old(repo.table), job,
                                             ReadyAt(job, old(clock.now) + w.readTook, maxSendDelay), p)
              && SavesOf(end.store.trace, job.id) == SavesOf(s.store.trace, job.id) + PreparedSaves(e, p)
              && (claimed ==> attempts == e)
      ensures clock.now == if w.readOk && !WorkerProtocol.ShouldSkip(Settings(), Lookup(old(repo.table), job.id))
                              && !IsExpired(job, old(clock.now) + w.readTook)
                           then FirstCall(job, old(clock.now), maxSendDelay, w) else old(clock.now) + w.readTook
      ensures !claimed && !Prepares(Settings(), old(repo.table), job, old(clock.now), maxSendDelay, w).Expires? ==>
                repo.table == old(repo.table)
      // a late job is never claimed, and is stored EXPIRED unless a statement fails or its row is final
      ensures Late(job, old(clock.now), w) ==> !claimed
      ensures Late(job, old(clock.now), w) && w.readOk && w.saveExpired.None?
              && (job.id in old(repo.table) ==> !old(repo.table)[job.id].status.Terminal()) ==>
                !raised && MarkedExpired(old(repo.table), repo.table, job)
      ensures repo.table - {job.id} == old(repo.table) - {job.id}
    {
      hide Obeys, ConsumerStep, Reaches, DlqEntries, SavesOf, JobsCalled, JobIds, Save, AtomicClaim, WorkerProtocol.ShouldSkip;
      run, end := PrepareRun(world, s, clock.now, maxSendDelay);
      PreparationExact(Settings(), repo.table, job, clock.now, maxSendDelay, w);
      raised, claimed, attempts := false, false, 0;
      clock.Spend(w.readTook);
      if !w.readOk {
        return true, false, 0, run, end;
      }
      var existing := repo.GetByJobId(job.id);
      var skip := ShouldSkip(existing);
      if skip {
        return;
      }

      attempts := if existing.Some? then existing.value.attempts else 0;
      if job.expiresAt.Some? && clock.now > job.expiresAt.value {
        if w.saveExpired.Some? {
          return true, false, 0, run, end;
        }
        repo.SaveStatus(job, Expired, attempts, Some("Notification expired"), None);
        return;
      }

      WaitSendAfter(job, maxSendDelay, clock);

      if !w.insertOk || (job.id in repo.table && !w.updateOk) {
        clock.Spend(w.claimTook);
        return true, false, 0, run, end;
      }
      claimed := repo.TryClaimJob(job, clock.now, staleAfter);
      clock.Spend(w.claimTook);
    }

    method HandleJob(job: Job, w: JobWeather, ghost world: World, ghost s: Consumer)
      returns (raised: bool, calls: seq<int>, ghost run: seq<Action>, ghost end: Consumer)
      requires world.c == Settings() && world.weather(s.committed).job == w && s.pc == Reading(job) && Shows(s)
      modifies sender, repo, dlq, clock
      // one call is the run of the protocol that the weather prescribes, from the read to a handled
      // message or a raised error
      ensures Reaches(world, s, run, end) && Shows(end)
      ensures end.position == s.position && end.committed == s.committed
      ensures if raised then end.pc.PublishingEscape? && end.pc.job == job else end.pc == Done || end.pc == Busy(job)
      // it raises, sends, stores and publishes exactly what the row, the instants and the weather come to
      ensures var r := HandledJob(Settings(), old(repo.table), job, old(clock.now), maxSendDelay, w);
              && raised == r.raised && |calls| == r.calls && dlq.entries == old(dlq.entries) + r.entries
              && SavesOf(end.store.trace, job.id) == SavesOf(s.store.trace, job.id) + r.saves
      ensures repo.table == HandledTable(Settings(), old(repo.table), job, old(clock.now), maxSendDelay, w, clock.now)
      ensures clock.now == HandledAt(Settings(), old(repo.table), job, old(clock.now), maxSendDelay, delays, w)
      ensures sender.calls == old(sender.calls) + CallsFor(job, calls)
      ensures CallsAdded(old(sender.calls), sender.calls, old(clock.now), clock.now)
      // a late job is never sent, and is stored EXPIRED unless a statement fails or its row is final; a
      // delivered one is left alone
      ensures calls != [] ==>
                var checked := old(clock.now) + w.readTook;
                calls[0] == w.claimTook
                  + if job.sendAfter.None? then checked else Max(checked, Min(job.sendAfter.value, checked + maxSendDelay))
      ensures calls != [] && job.expiresAt.Some? ==> old(clock.now) + w.readTook <= job.expiresAt.value
      ensures Late(job, old(clock.now), w) && w.readOk && w.saveExpired.None?
              && (job.id in old(repo.table) ==> !old(repo.table)[job.id].status.Terminal()) ==>
                !raised && calls == [] && MarkedExpired(old(repo.table), repo.table, job)
      ensures job.id in old(repo.table) && old(repo.table)[job.id].status == Sent ==>
                calls == [] && repo.table == old(repo.table) && (raised <==> !w.readOk)
      ensures repo.table - {job.id} == old(repo.table) - {job.id}
      // the sender is called exactly when the claim is won with budget left, first at FirstCall
      ensures calls != [] <==> && Prepares(Settings(), old(repo.table), job, old(clock.now), maxSendDelay, w).Wins?
                               && StoredAttempts(old(repo.table), job.id) < maxAttempts
      ensures forall i | 0 <= i < |calls| ::
                calls[i] == CallAt(FirstCall(job, old(clock.now), maxSendDelay, w), StoredAttempts(old(repo.table), job.id),
                                   i, delays, w.attempts)
      ensures calls != [] ==>
                clock.now == calls[|calls| - 1] + w.attempts(StoredAttempts(old(repo.table), job.id) + |calls|).took
    {
      hide Obeys, ConsumerStep, Reaches, SavesOf, Mirrors, CallsFor, CallAt, FirstCall, ReadyAt, Prepares, PreparedTable,
           HandledJob, HandledTable, HandledAt, TableAfter, Writes, Stop, Outcome, Paced, ShowsLast, CallsAdded, MarkedExpired,
           Late, IsExpired, WorkerProtocol.ShouldSkip;
      ghost var at, was, before := clock.now, repo.table, sender.calls;
      calls := [];
      HandledWhenLate(Settings(), was, job, at, maxSendDelay, w);
      WinsAtClaim(Settings(), was, job, at, maxSendDelay, w);
      var claimed, existingAttempts;
      raised, claimed, existingAttempts, run, end := PrepareAndClaim(job, w, world, s);
      if !claimed {
        HandledBefore(Settings(), was, job, at, maxSendDelay, delays, w, clock.now, before);
        return;
      }
      ghost var prepared, mid, entered := run, end, repo.table;
      var writes, sleeps;
      raised, writes, sleeps, calls, run, end :=
        AttemptWithRetries(job, existingAttempts, maxAttempts, delays, w.attempts, sender, repo, dlq, clock, world, mid);
      HandledInLoop(Settings(), was, job, at, maxSendDelay, delays, w, entered, repo.table, clock.now, before, calls, writes);
      Joined(world, s, prepared, mid, run, end);
      run := prepared + run;
    }

    method HandleMessage(msg: Message, w: MessageWeather, ghost world: World, ghost s: Consumer)
      returns (handled: bool, ghost calls: seq<int>, ghost run: seq<Action>, ghost end: Consumer)
      requires world.c == Settings() && world.weather(s.committed) == w && !w.stopped && Shows(s)
      requires s.pc == Idle && s.position == s.committed < |world.log| && msg == world.log[s.position]
      modifies sender, repo, dlq, clock
      // it is the run of the protocol that the weather prescribes
      ensures Reaches(world, s, run, end) && Shows(end)
      ensures end.committed == s.committed
      ensures handled ==> (end.pc.Done? || end.pc.Busy?) && end.position == s.position + 1
      ensures !handled ==> end.pc == Idle && end.position == end.committed && EndsWith(run, Publish(false))
      // only a DLQ publish that raises leaves a message unhandled
      ensures msg.Invalid? ==>
                && calls == [] && clock.now == old(clock.now) && handled == w.publish && repo.table == old(repo.table)
                && dlq.entries == old(dlq.entries) + EscapeEntries(true, w.publish, OfRaw(msg.raw))
      ensures msg.Valid? ==>
                var r := HandledJob(Settings(), old(repo.table), msg.job, old(clock.now), maxSendDelay, w.job);
                && handled == (w.publish || !r.raised) && |calls| == r.calls
                && sender.calls == old(sender.calls) + CallsFor(msg.job, calls)
                && clock.now == HandledAt(Settings(), old(repo.table), msg.job, old(clock.now), maxSendDelay, delays, w.job)
                && repo.table == HandledTable(Settings(), old(repo.table), msg.job, old(clock.now), maxSendDelay, w.job, clock.now)
                && dlq.entries == old(dlq.entries) + r.entries + EscapeEntries(r.raised, w.publish, OfJob(msg.job.id))
      ensures calls == [] ==> sender.calls == old(sender.calls)
      ensures CallsAdded(old(sender.calls), sender.calls, old(clock.now), clock.now)
      ensures clock.now <= old(clock.now) + Longest(Settings(), maxSendDelay, delays, w.job)
    {
      hide Obeys, ConsumerStep, Reaches, DlqEntries, JobsCalled, JobIds, CallsFor, HandledJob, HandledTable, HandledAt, Longest;
      calls := [];
      run, end := TakeReceive(world, s);
      match msg {
        case Invalid(raw) =>
          run, end := TakePublishRaw(world, s, run, end);
          if w.publish {
            dlq.Publish(OfRaw(raw));
          }
          return w.publish, calls, run, end;
        case Valid(job) =>
          ghost var first, received := run, end;
          HandledInTime(Settings(), repo.table, job, clock.now, maxSendDelay, delays, w.job);
          var raised, instants;
          raised, instants, run, end := HandleJob(job, w.job, world, received);
          calls := instants;
          CallsForNext(job, [], 0);
          Joined(world, s, first, received, run, end);
          run := first + run;
          if !raised {
            return true, calls, run, end;
          }
          run, end := TakePublishEscape(world, s, run, end);
          if w.publish {
            dlq.Publish(OfJob(job.id));
          }
          return w.publish, calls, run, end;
      }
    }
  }

  class KafkaNotificationConsumer {
    const processor: JobProcessor
    var committed: nat       // the group's offset, kept by the broker across restarts

    constructor (processor: JobProcessor)
      ensures this.processor == processor && committed == 0
    {
      this.processor, committed := processor, 0;
    }

    /** The loop over the messages from the committed offset on, until the log ends, the stop flag is
        set, or an exception leaves it. It is a run of the protocol, so what holds of every run of the
        protocol holds of every sequence of calls of Start. */
    method Start(log: seq<Message>, weather: nat -> MessageWeather, ghost s: Consumer)
      returns (ghost run: seq<Action>, ghost end: Consumer)
      requires s.pc == Idle && s.position == s.committed == committed && processor.Shows(s)
      modifies this, processor.sender, processor.repo, processor.dlq, processor.clock
      // it is the run of the protocol that the weather prescribes
      ensures Reaches(World(processor.Settings(), log, weather), s, run, end) && processor.Shows(end)
      ensures end.pc == Idle && end.position == end.committed == committed
      // every message is handled and committed, up to the stop flag, or to a message that was handled but
      // for its last action: the handler's DLQ publish, or the commit
      ensures old(committed) <= committed
      ensures committed < |log| ==>
                var w := weather(committed);
                w.stopped || (EndsWith(run, Publish(false)) && !w.publish) || (EndsWith(run, Crash) && !w.commit)
      ensures forall i | old(committed) <= i < committed :: !weather(i).stopped && weather(i).commit
      ensures committed <= |log| || committed == old(committed)
      // it calls the sender only while it runs, and takes no longer than its jobs do
      ensures CallsAdded(old(processor.sender.calls), processor.sender.calls, old(processor.clock.now), processor.clock.now)
      ensures processor.clock.now <= old(processor.clock.now)
                + LongestOf(processor.Settings(), processor.maxSendDelay, processor.delays, weather, old(committed), committed + 1)
      // in particular it keeps the invariant and leaves every terminal row's status and attempts alone
      ensures Invariant(processor.Settings(), log, s) ==>
                && Invariant(processor.Settings(), log, end)
                && forall j | IsTerminal(old(processor.repo.table), j) ::
                     && IsTerminal(processor.repo.table, j)
                     && processor.repo.table[j].status == old(processor.repo.table)[j].status
                     && processor.repo.table[j].attempts == old(processor.repo.table)[j].attempts
      // and with its failure writes successful it loses nothing, unless an earlier process left a lease
      ensures && Invariant(processor.Settings(), log, s) && AllSettled(log, s) && NoLeases(old(processor.repo.table))
              && (forall i: nat, n: nat :: weather(i).job.attempts(n).saveFailure.None?) ==>
                AllSettled(log, end) && NoLeases(processor.repo.table)
    {
      hide Obeys, ConsumerStep, ConsumerExec, Reaches, DlqEntries, JobsCalled, JobIds, Invariant, CallsAdded, CallsFor,
           HandledAt, HandledJob, HandledTable, Longest, LongestOf, EscapeEntries, IsTerminal, AllSettled, NoLeases;
      ghost var world := World(processor.Settings(), log, weather);
      run, end := [], s;
      Nothing(world, s);
      NoneAdded(processor.sender.calls, processor.clock.now);
      LongestNext(processor.Settings(), processor.maxSendDelay, processor.delays, weather, committed, committed);
      var position := committed;
      while position < |log|
        invariant Reaches(world, s, run, end) && processor.Shows(end)
        invariant CallsAdded(old(processor.sender.calls), processor.sender.calls, old(processor.clock.now), processor.clock.now)
        invariant processor.clock.now <= old(processor.clock.now)
                    + LongestOf(processor.Settings(), processor.maxSendDelay, processor.delays, weather, old(committed), committed)
        invariant run == [] || EndsWith(run, Commit)
        invariant end.pc == Idle && end.position == end.committed == committed == position
        invariant old(committed) <= committed && (committed <= |log| || committed == old(committed))
        invariant forall i | old(committed) <= i < committed :: !weather(i).stopped && weather(i).commit
      {
        LongestNext(processor.Settings(), processor.maxSendDelay, processor.delays, weather, old(committed), position);
        var w := weather(position);
        if w.stopped {
          break;
        }
        ghost var before, mid, turn, instants := run, end, [], [];
        ghost var calls, at := processor.sender.calls, processor.clock.now;
        var handled;
        handled, instants, turn, end := processor.HandleMessage(log[position], w, world, mid);
        CallsAddedTwice(old(processor.sender.calls), calls, processor.sender.calls, old(processor.clock.now), at,
                        processor.clock.now);
        Joined(world, s, before, mid, turn, end);
        run := before + turn;
        if !handled {
          break;
        }
        position := position + 1;
        run, end := TakeCommit(world, s, run, end);
        if !w.commit {
          break;
        }
        committed := position;
      }
      LongestNext(processor.Settings(), processor.maxSendDelay, processor.delays, weather, old(committed), committed);
      ProcessKeeps(world, s, run, end);
    }
  }
}
