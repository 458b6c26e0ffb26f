/** What a history of events says about one job or one worker. */
module History {
  import opened Delivery
  import opened WorkerProtocol

  datatype Measure =
    | Calls                // attempt_send_fn started
    | Sends                // attempt_send_fn returned
    | LostWindows          // calls whose result was never stored
    | Unrecorded           // successful sends whose SENT was never stored
    | Claims
    | Inserts              // claims won by the INSERT
    | FinalDlqs            // DLQ entries for a FAILED that was stored
    | Abandons             // such entries given up by a crash

  function Weight(k: Kind, m: Measure): nat {
    match m
    case Calls => if k.Called? then 1 else 0
    case Sends => if k.SendOk? then 1 else 0
    case LostWindows => if k.Lost? then 1 else 0
    case Unrecorded => if k.SentNotSaved? || (k.Lost? && k.sent) then 1 else 0
    case Claims => if k.Claimed? then 1 else 0
    case Inserts => if k.Claimed? && k.inserted then 1 else 0
    case FinalDlqs => if k.Dlq? && k.final then 1 else 0
    case Abandons => if k.Abandoned? && k.final then 1 else 0
  }

  function Delta(e: Event, j: JobId, m: Measure): nat {
    if e.JobEvent? && e.job == j then Weight(e.kind, m) else 0
  }

  function Count(trace: seq<Event>, j: JobId, m: Measure): nat {
    if trace == [] then 0
    else Count(trace[..|trace| - 1], j, m) + Delta(trace[|trace| - 1], j, m)
  }

  lemma CountAfter(s: Store, e: Effect, j: JobId, m: Measure)
    requires e.Effect?
    ensures Count(s.After(e).trace, j, m) == Count(s.trace, j, m) + Delta(e.event, j, m)
  {
    if !e.event.Silent? {
      assert (s.trace + [e.event])[..|s.trace|] == s.trace;
    }
  }

  /** The attempts a claim grants: maxAttempts minus the count its worker read before it. */
  function Grant(max: int, e: Event, j: JobId): int {
    if e.JobEvent? && e.job == j && e.kind.Claimed? then max - e.kind.snap else 0
  }

  /** The sum of the grants of a job's claims. */
  function Granted(max: int, trace: seq<Event>, j: JobId): int {
    if trace == [] then 0
    else Granted(max, trace[..|trace| - 1], j) + Grant(max, trace[|trace| - 1], j)
  }

  lemma GrantedAfter(max: int, s: Store, e: Effect, j: JobId)
    requires e.Effect?
    ensures Granted(max, s.After(e).trace, j) == Granted(max, s.trace, j) + Grant(max, e.event, j)
  {
    if !e.event.Silent? {
      assert (s.trace + [e.event])[..|s.trace|] == s.trace;
    }
  }

  /** Every claim grants at most the whole budget. */
  lemma {:induction false} GrantedWithinClaims(max: int, trace: seq<Event>, j: JobId)
    requires 0 <= max
    ensures Granted(max, trace, j) <= max * Count(trace, j, Claims)
  {
    if trace != [] {
      var prev := trace[..|trace| - 1];
      GrantedWithinClaims(max, prev, j);
      var n := Count(prev, j, Claims);
      assert max * (n + 1) == max * n + max;
    }
  }

  /** The last status a worker stored, and for which job. */
  function LastSave(trace: seq<Event>, w: nat): Option<(JobId, Status)> {
    if trace == [] then None
    else
      var e := trace[|trace| - 1];
      if e.JobEvent? && e.worker == w && e.kind.Saved? then Some((e.job, e.kind.status))
      else LastSave(trace[..|trace| - 1], w)
  }

  /** The instant of the last claim of a job, when no status has been saved for the job since. */
  function OpenClaim(trace: seq<Event>, j: JobId): Option<int> {
    if trace == [] then None
    else
      var e := trace[|trace| - 1];
      if e.JobEvent? && e.job == j && e.kind.Claimed? then Some(e.kind.now)
      else if e.JobEvent? && e.job == j && e.kind.Saved? then None
      else OpenClaim(trace[..|trace| - 1], j)
  }

  ghost predicate InDlq(trace: seq<Event>, j: JobId) {
    exists i :: 0 <= i < |trace| && trace[i].JobEvent? && trace[i].job == j && trace[i].kind.Dlq?
  }

  ghost predicate RawInDlq(trace: seq<Event>, raw: nat) {
    exists i :: 0 <= i < |trace| && trace[i].RawDlq? && trace[i].raw == raw
  }

  datatype StatusWrite = StatusWrite(status: Status, attempts: nat)

  function SaveOf(e: Event, j: JobId): seq<StatusWrite> {
    if e.JobEvent? && e.job == j && e.kind.Saved? then [StatusWrite(e.kind.status, e.kind.attempts)] else []
  }

  /** The statuses stored for a job, in order. */
  function SavesOf(trace: seq<Event>, j: JobId): seq<StatusWrite> {
    if trace == [] then []
    else SavesOf(trace[..|trace| - 1], j) + SaveOf(trace[|trace| - 1], j)
  }

  lemma SavesAfter(s: Store, e: Effect, j: JobId)
    requires e.Effect?
    ensures SavesOf(s.After(e).trace, j) == SavesOf(s.trace, j) + SaveOf(e.event, j)
  {
    if !e.event.Silent? {
      assert (s.trace + [e.event])[..|s.trace|] == s.trace;
    }
  }

  datatype DlqEntry = OfJob(id: JobId) | OfRaw(raw: nat)

  function EntryOf(e: Event): seq<DlqEntry> {
    if e.RawDlq? then [OfRaw(e.raw)] else if e.JobEvent? && e.kind.Dlq? then [OfJob(e.job)] else []
  }

  /** The DLQ entries a history has published. */
  function DlqEntries(trace: seq<Event>): seq<DlqEntry> {
    if trace == [] then []
    else DlqEntries(trace[..|trace| - 1]) + EntryOf(trace[|trace| - 1])
  }

  lemma DlqEntriesAfter(s: Store, e: Effect)
    requires e.Effect?
    ensures DlqEntries(s.After(e).trace) == DlqEntries(s.trace) + EntryOf(e.event)
  {
    if !e.event.Silent? {
      assert (s.trace + [e.event])[..|s.trace|] == s.trace;
    }
  }

  function CallOf(e: Event): seq<JobId> {
    if e.JobEvent? && e.kind.Called? then [e.job] else []
  }

  /** The jobs for which the sender was called, in order. */
  function JobsCalled(trace: seq<Event>): seq<JobId> {
    if trace == [] then []
    else JobsCalled(trace[..|trace| - 1]) + CallOf(trace[|trace| - 1])
  }

  lemma JobsCalledAfter(s: Store, e: Effect)
    requires e.Effect?
    ensures JobsCalled(s.After(e).trace) == JobsCalled(s.trace) + CallOf(e.event)
  {
    if !e.event.Silent? {
      assert (s.trace + [e.event])[..|s.trace|] == s.trace;
    }
  }

  /** What is counted as calls of a job is how often the sender was called for it. */
  lemma {:induction false} CallsAreCounted(trace: seq<Event>, j: JobId)
    ensures multiset(JobsCalled(trace))[j] == Count(trace, j, Calls)
  {
    if trace != [] {
      CallsAreCounted(trace[..|trace| - 1], j);
    }
  }

  /** What a history says about the DLQ and the sender, and about the writes of one job. */
  datatype Ledger = Ledger(entries: seq<DlqEntry>, called: seq<JobId>, saves: seq<StatusWrite>)

  function LedgerOf(trace: seq<Event>, j: JobId): Ledger {
    Ledger(DlqEntries(trace), JobsCalled(trace), SavesOf(trace, j))
  }

  lemma LedgerAfter(s: Store, e: Effect, j: JobId)
    requires e.Effect?
    ensures LedgerOf(s.After(e).trace, j)
         == Ledger(DlqEntries(s.trace) + EntryOf(e.event), JobsCalled(s.trace) + CallOf(e.event),
                   SavesOf(s.trace, j) + SaveOf(e.event, j))
  {
    DlqEntriesAfter(s, e);
    JobsCalledAfter(s, e);
    SavesAfter(s, e, j);
  }
}
