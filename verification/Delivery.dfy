/** The notification_delivery table: its rows, the two statements of a claim, the upsert that
    saves a status, and the repository object that runs them in place. */
module Delivery {

  datatype Option<+T> = None | Some(value: T)

  type JobId = nat

  datatype Channel = Email | Push | Ws | Sms

  datatype Status = Processing | Sent | Failed | Retrying | Expired
  {
    predicate Terminal() { Sent? || Failed? || Expired? }
  }

  /** A validated job message. Instants are integers on one time scale. */
  datatype Job = Job(id: JobId, user: nat, channel: Channel, sendAfter: Option<int>, expiresAt: Option<int>)

  datatype Row = Row(user: nat, channel: Channel, status: Status, attempts: nat,
                     error: Option<string>, sentAt: Option<int>, startedAt: Option<int>)

  type Table = map<JobId, Row>

  function Lookup(t: Table, id: JobId): Option<Row> {
    if id in t then Some(t[id]) else None
  }

  /** The attempts stored for a job; a job without a row has none. */
  function StoredAttempts(t: Table, id: JobId): nat {
    if id in t then t[id].attempts else 0
  }

  /** INSERT ... ON CONFLICT (job_id) DO NOTHING */
  function InsertClaim(t: Table, job: Job, now: int): Table {
    if job.id in t then t
    else t[job.id := Row(job.user, job.channel, Processing, 0, None, None, Some(now))]
  }

  /** The WHERE clause of the claiming UPDATE, apart from the key. */
  predicate Claimable(row: Row, staleBefore: int) {
    && !row.status.Terminal()
    && (row.status != Processing || row.startedAt.None? || row.startedAt.value < staleBefore)
  }

  predicate UpdateMatches(t: Table, id: JobId, staleBefore: int) {
    id in t && Claimable(t[id], staleBefore)
  }

  /** The claiming UPDATE. It keeps the stored attempts. */
  function UpdateClaim(t: Table, id: JobId, now: int, staleBefore: int): Table {
    if UpdateMatches(t, id, staleBefore)
    then t[id := t[id].(status := Processing, startedAt := Some(now))]
    else t
  }

  /** The row the upsert of save_status leaves: a conflicting row keeps its user and channel. */
  function SavedRow(t: Table, job: Job, status: Status, attempts: nat, error: Option<string>, sentAt: Option<int>): Row {
    if job.id in t
    then t[job.id].(status := status, attempts := attempts, error := error, sentAt := sentAt, startedAt := None)
    else Row(job.user, job.channel, status, attempts, error, sentAt, None)
  }

  function Save(t: Table, job: Job, status: Status, attempts: nat, error: Option<string>, sentAt: Option<int>): Table {
    t[job.id := SavedRow(t, job, status, attempts, error, sentAt)]
  }

  datatype Claim = Claim(table: Table, claimed: bool)

  /** What a claim should be: one compare-and-set on the job's row. */
  function AtomicClaim(t: Table, job: Job, now: int, staleAfter: int): Claim {
    if job.id !in t || Claimable(t[job.id], now - staleAfter) then
      var row :=
        if job.id in t then t[job.id].(status := Processing, startedAt := Some(now))
        else Row(job.user, job.channel, Processing, 0, None, None, Some(now));
      Claim(t[job.id := row], true)
    else
      Claim(t, false)
  }

  /** Access to the table; the statements of one method run one after the other. */
  class NotificationDeliveryRepository {
    var table: Table

    constructor ()
      ensures table == map[]
    {
      table := map[];
    }

    method GetByJobId(id: JobId) returns (row: Option<Row>)
      ensures row == Lookup(table, id)
    {
      if id in table {
        row := Some(table[id]);
      } else {
        row := None;
      }
    }

    method TryClaimJob(job: Job, now: int, staleAfter: int := 300) returns (claimed: bool)
      modifies this
      ensures Claim(table, claimed) == AtomicClaim(old(table), job, now, staleAfter)
      // it is won exactly for a new job, one between two attempts, and one whose lease is missing or too old
      ensures claimed <==> job.id in old(table) ==>
                             var row := old(table)[job.id];
                             || row.status == Retrying
                             || (row.status == Processing && (row.startedAt.None? || now - row.startedAt.value > staleAfter))
      // a won claim leases the one row from now on: the job's own, or the stored one as it was
      ensures !claimed ==> table == old(table)
      ensures table - {job.id} == old(table) - {job.id}
      ensures claimed ==> job.id in table && table[job.id].status == Processing && table[job.id].startedAt == Some(now)
      ensures claimed && job.id !in old(table) ==>
                var row := table[job.id];
                && row.user == job.user && row.channel == job.channel
                && row.attempts == 0 && row.error == None && row.sentAt == None
      ensures claimed && job.id in old(table) ==>
                var row, was := table[job.id], old(table)[job.id];
                && row.user == was.user && row.channel == was.channel
                && row.attempts == was.attempts && row.error == was.error && row.sentAt == was.sentAt
    {
      var staleBefore := now - staleAfter;
      var inserted := job.id !in table;
      table := InsertClaim(table, job, now);
      if inserted {
        return true;
      }
      claimed := UpdateMatches(table, job.id, staleBefore);
      table := UpdateClaim(table, job.id, now, staleBefore);
    }

    method SaveStatus(job: Job, status: Status, attempts: nat, error: Option<string>, sentAt: Option<int>)
      modifies this
      ensures table == Save(old(table), job, status, attempts, error, sentAt)
      ensures table - {job.id} == old(table) - {job.id}
      // the five columns are replaced and the lease released; a stored row keeps its user and channel, a new
      // one gets the job's
      ensures && job.id in table && table[job.id].status == status && table[job.id].attempts == attempts
              && table[job.id].error == error && table[job.id].sentAt == sentAt && table[job.id].startedAt == None
      ensures if job.id in old(table)
              then table[job.id].user == old(table)[job.id].user && table[job.id].channel == old(table)[job.id].channel
              else table[job.id].user == job.user && table[job.id].channel == job.channel
    {
      if job.id in table {
        var row := table[job.id];
        table := table[job.id := row.(status := status, attempts := attempts, error := error,
                                      sentAt := sentAt, startedAt := None)];
      } else {
        table := table[job.id := Row(job.user, job.channel, status, attempts, error, sentAt, None)];
      }
    }
  }
}
