/** One worker handling one message at a time, as a labelled step function. Every step is one
    atomic action of the program: one SQL statement, one send, one publish, one clock reading. */
module WorkerProtocol {
  import opened Delivery

  datatype Config = Config(maxAttempts: int, staleAfter: int)

  datatype Message = Valid(job: Job) | Invalid(raw: nat)

  /** Where a worker is: the action it takes next. `snap` is the attempts count read before the claim. */
  datatype Pc =
    | Idle
    | PublishingRaw(raw: nat)
    | Reading(job: Job)
    | CheckingExpiry(job: Job, snap: nat)
    | SavingExpired(job: Job, snap: nat)
    | Inserting(job: Job, snap: nat)                     // waits for send_after, then the INSERT
    | Updating(job: Job, snap: nat, now: int)            // the INSERT found a row
    | Looping(job: Job, attempts: nat)                   // loop head, or asleep before it
    | Sending(job: Job, attempts: nat)
    | SavingSent(job: Job, attempts: nat)
    | SavingFailure(job: Job, attempts: nat, error: string)
    | PublishingFinal(job: Job, attempts: nat)           // FAILED is saved, the DLQ entry is not
    | PublishingEscape(job: Job, final: bool)            // handle_job raised; final: after FAILED was saved
    | Busy(job: Job)                                     // the claim was refused
    | Done                                               // handled in any other way

  /** The environment's choices. An error in a statement means that it had no effect and raised. */
  datatype Action =
    | Receive(msg: Message)
    | Read(ok: bool)
    | CheckExpiry(now: int)
    | SaveStatus(now: int, error: Option<string>)
    | Insert(now: int, ok: bool)
    | Update(ok: bool)
    | Attempt
    | SendReturns(error: Option<string>)
    | Publish(ok: bool)
    | Commit
    | Crash

  datatype Kind =
    | Claimed(snap: nat, now: int, inserted: bool)
    | Refused(now: int)
    | Called(attempt: nat)
    | SendOk
    | Saved(status: Status, attempts: nat)
    | SentNotSaved                                       // the SENT save raised after a successful send
    | Lost(sent: bool)                                   // a call whose result is never stored
    | Dlq(final: bool)                                   // final: the entry for a FAILED just saved
    | Abandoned(final: bool)                             // stopped before that entry was published

  datatype Event = JobEvent(worker: nat, job: JobId, kind: Kind) | RawDlq(worker: nat, raw: nat) | Silent

  /** What one action does: the table after it, the event it leaves in the history, the worker's next
      place. Blocked when the action is not the worker's next one. */
  datatype Effect = Blocked | Effect(table: Table, event: Event, pc: Pc)

  datatype Store = Store(table: Table, trace: seq<Event>)
  {
    function After(e: Effect): Store
      requires e.Effect?
    {
      Store(e.table, if e.event.Silent? then trace else trace + [e.event])
    }
  }

  predicate ShouldSkip(c: Config, row: Option<Row>) {
    && row.Some?
    && (|| row.value.status == Sent
        || ((row.value.status == Expired || row.value.status == Failed) && row.value.attempts >= c.maxAttempts))
  }

  predicate IsExpired(job: Job, now: int) {
    job.expiresAt.Some? && now > job.expiresAt.value
  }

  predicate InLoop(pc: Pc) {
    pc.Looping? || pc.Sending? || pc.SavingSent? || pc.SavingFailure? || pc.PublishingFinal?
  }

  /** A crash, a cancellation or a raised consumer loop: nothing more is stored. */
  function Halt(w: nat, t: Table, pc: Pc): Effect {
    match pc
    case Sending(job, _) => Effect(t, JobEvent(w, job.id, Lost(false)), Idle)
    case SavingSent(job, _) => Effect(t, JobEvent(w, job.id, Lost(true)), Idle)
    case SavingFailure(job, _, _) => Effect(t, JobEvent(w, job.id, Lost(false)), Idle)
    case PublishingFinal(job, _) => Effect(t, JobEvent(w, job.id, Abandoned(true)), Idle)
    case PublishingEscape(job, final) => Effect(t, JobEvent(w, job.id, Abandoned(final)), Idle)
    case _ => Effect(t, Silent, Idle)
  }

  /** Read the row, skip, expire. */
  function Prepare(c: Config, w: nat, t: Table, pc: Pc, a: Action): Effect
    requires pc.Reading? || pc.CheckingExpiry? || pc.SavingExpired?
  {
    match pc
    case Reading(job) =>
      if !a.Read? then Blocked
      else if !a.ok then Effect(t, Silent, PublishingEscape(job, false))
      else if ShouldSkip(c, Lookup(t, job.id)) then Effect(t, Silent, Done)
      else Effect(t, Silent, CheckingExpiry(job, StoredAttempts(t, job.id)))
    case CheckingExpiry(job, snap) =>
      if !a.CheckExpiry? then Blocked
      else if IsExpired(job, a.now) then Effect(t, Silent, SavingExpired(job, snap))
      else Effect(t, Silent, Inserting(job, snap))
    case SavingExpired(job, snap) =>
      if !a.SaveStatus? then Blocked
      else if a.error.Some? then Effect(t, Silent, PublishingEscape(job, false))
      else Effect(Save(t, job, Expired, snap, Some("Notification expired"), None),
                  JobEvent(w, job.id, Saved(Expired, snap)), Done)
  }

  /** The two statements of try_claim_job. */
  function ClaimJob(c: Config, w: nat, t: Table, pc: Pc, a: Action): Effect
    requires pc.Inserting? || pc.Updating?
  {
    match pc
    case Inserting(job, snap) =>
      if !a.Insert? then Blocked
      else if !a.ok then Effect(t, Silent, PublishingEscape(job, false))
      else if job.id in t then Effect(t, Silent, Updating(job, snap, a.now))
      else Effect(InsertClaim(t, job, a.now), JobEvent(w, job.id, Claimed(snap, a.now, true)), Looping(job, snap))
    case Updating(job, snap, now) =>
      var staleBefore := now - c.staleAfter;
      if !a.Update? then Blocked
      else if !a.ok then Effect(t, Silent, PublishingEscape(job, false))
      else if UpdateMatches(t, job.id, staleBefore) then
        Effect(UpdateClaim(t, job.id, now, staleBefore), JobEvent(w, job.id, Claimed(snap, now, false)), Looping(job, snap))
      else Effect(t, JobEvent(w, job.id, Refused(now)), Busy(job))
  }

  /** attempt_with_retries. */
  function Loop(c: Config, w: nat, t: Table, pc: Pc, a: Action): Effect
    requires InLoop(pc)
  {
    match pc
    case Looping(job, n) =>
      if !a.Attempt? then Blocked
      else if n >= c.maxAttempts then Effect(t, Silent, Done)
      else Effect(t, JobEvent(w, job.id, Called(n + 1)), Sending(job, n + 1))
    case Sending(job, n) =>
      if !a.SendReturns? then Blocked
      else if a.error.Some? then Effect(t, Silent, SavingFailure(job, n, a.error.value))
      else Effect(t, JobEvent(w, job.id, SendOk), SavingSent(job, n))
    case SavingSent(job, n) =>
      if !a.SaveStatus? then Blocked
      else if a.error.Some? then Effect(t, JobEvent(w, job.id, SentNotSaved), SavingFailure(job, n, a.error.value))
      else Effect(Save(t, job, Sent, n, None, Some(a.now)), JobEvent(w, job.id, Saved(Sent, n)), Done)
    case SavingFailure(job, n, error) =>
      if !a.SaveStatus? then Blocked
      else if a.error.Some? then Effect(t, JobEvent(w, job.id, Lost(false)), PublishingEscape(job, false))
      else if n >= c.maxAttempts then
        Effect(Save(t, job, Failed, n, Some(error), None), JobEvent(w, job.id, Saved(Failed, n)), PublishingFinal(job, n))
      else
        Effect(Save(t, job, Retrying, n, Some(error), None), JobEvent(w, job.id, Saved(Retrying, n)), Looping(job, n))
    case PublishingFinal(job, n) =>
      if !a.Publish? then Blocked
      else if a.ok then Effect(t, JobEvent(w, job.id, Dlq(true)), Done)
      else Effect(t, Silent, PublishingEscape(job, true))
  }

  /** One action of worker w at pc, on the shared table. */
  function Act(c: Config, w: nat, t: Table, pc: Pc, a: Action): Effect {
    if a.Crash? then Halt(w, t, pc)
    else
      match pc
      case Idle =>
        if !a.Receive? then Blocked
        else if a.msg.Valid? then Effect(t, Silent, Reading(a.msg.job))
        else Effect(t, Silent, PublishingRaw(a.msg.raw))
      case PublishingRaw(raw) =>
        if !a.Publish? then Blocked
        else if a.ok then Effect(t, RawDlq(w, raw), Done)
        else Halt(w, t, pc)
      case Reading(_) | CheckingExpiry(_, _) | SavingExpired(_, _) => Prepare(c, w, t, pc, a)
      case Inserting(_, _) | Updating(_, _, _) => ClaimJob(c, w, t, pc, a)
      case Looping(_, _) | Sending(_, _) | SavingSent(_, _) | SavingFailure(_, _, _) | PublishingFinal(_, _) =>
        Loop(c, w, t, pc, a)
      case PublishingEscape(job, final) =>
        if !a.Publish? then Blocked
        else if a.ok then Effect(t, JobEvent(w, job.id, Dlq(final)), Done)
        else Halt(w, t, pc)
      case Busy(_) => if a.Commit? then Effect(t, Silent, Idle) else Blocked
      case Done => if a.Commit? then Effect(t, Silent, Idle) else Blocked
  }

  /** The worker has called the sender and not yet stored the result. */
  predicate Calling(pc: Pc) {
    pc.Sending? || pc.SavingSent? || pc.SavingFailure?
  }

  /** The number of attempts a worker may still start under the claim it holds for this job. */
  function Remaining(c: Config, pc: Pc, j: JobId): nat {
    if (pc.Looping? || Calling(pc)) && pc.job.id == j && pc.attempts < c.maxAttempts
    then c.maxAttempts - pc.attempts else 0
  }

  function InFlight(pc: Pc, j: JobId): nat {
    if Calling(pc) && pc.job.id == j then 1 else 0
  }
}
