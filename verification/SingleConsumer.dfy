/** One consumer of one partition: a log of messages, a position, and a committed offset to which every
    restart returns. Clock readings are arbitrary. */
module SingleConsumer {
  import opened Delivery
  import opened WorkerProtocol
  import opened History
  import opened MultiWorker
  import opened SharedJobs

  datatype Consumer = Consumer(store: Store, pc: Pc, position: nat, committed: nat)

  function Start(): Consumer {
    Consumer(Store(map[], []), Idle, 0, 0)
  }

  /** The consumer stops without committing: a crash, or a DLQ publish of the handler that raises. */
  predicate Halts(pc: Pc, a: Action) {
    a.Crash? || (a.Publish? && !a.ok && (pc.PublishingRaw? || pc.PublishingEscape?))
  }

  function ConsumerStep(c: Config, log: seq<Message>, s: Consumer, a: Action): Option<Consumer> {
    if a.Receive? && (s.position >= |log| || a.msg != log[s.position]) then None
    else
      var e := Act(c, 0, s.store.table, s.pc, a);
      if e.Blocked? then None else
        Some(Consumer(s.store.After(e), e.pc,
                      if Halts(s.pc, a) then s.committed else if a.Receive? then s.position + 1 else s.position,
                      if a.Commit? then s.position else s.committed))
  }

  function ConsumerExec(c: Config, log: seq<Message>, s: Consumer, run: seq<Action>): Option<Consumer>
    decreases |run|
  {
    if run == [] then Some(s)
    else
      match ConsumerStep(c, log, s, run[0])
      case None => None
      case Some(next) => ConsumerExec(c, log, next, run[1..])
  }

  lemma {:induction false} RunThen(c: Config, log: seq<Message>, s: Consumer, run: seq<Action>, a: Action)
    requires ConsumerExec(c, log, s, run).Some?
    ensures ConsumerExec(c, log, s, run + [a]) == ConsumerStep(c, log, ConsumerExec(c, log, s, run).value, a)
    decreases |run|
  {
    hide ConsumerStep;
    if run == [] {
      assert [a][1..] == [] && run + [a] == [a];
    } else {
      RunThen(c, log, ConsumerStep(c, log, s, run[0]).value, run[1..], a);
      assert (run + [a])[1..] == run[1..] + [a];
    }
  }

  /** Extends a run by one action. */
  lemma Advance(c: Config, log: seq<Message>, start: Consumer, run: seq<Action>, s: Consumer, a: Action)
    returns (run': seq<Action>, s': Consumer)
    requires ConsumerExec(c, log, start, run) == Some(s) && ConsumerStep(c, log, s, a).Some?
    ensures run' == run + [a]
    ensures ConsumerExec(c, log, start, run') == Some(s') && Some(s') == ConsumerStep(c, log, s, a)
  {
    hide ConsumerStep;
    RunThen(c, log, start, run, a);
    run', s' := run + [a], ConsumerStep(c, log, s, a).value;
  }

  // ---------------------------------------------------------------------------------------
  // Invariants

  predicate IsTerminal(t: Table, j: JobId) {
    j in t && t[j].status.Terminal()
  }

  predicate PcMessage(pc: Pc, m: Message) {
    match pc
    case Idle => false
    case Done => true
    case PublishingRaw(raw) => m == Invalid(raw)
    case _ => m == Valid(pc.job)
  }

  predicate OffsetsOk(log: seq<Message>, s: Consumer) {
    if s.pc.Idle? then s.position == s.committed <= |log|
    else s.position == s.committed + 1 <= |log| && PcMessage(s.pc, log[s.committed])
  }

  /** A message is accounted for: in the DLQ, or its job's row is in a terminal status. */
  ghost predicate Settled(s: Store, m: Message) {
    match m
    case Invalid(raw) => RawInDlq(s.trace, raw)
    case Valid(job) => InDlq(s.trace, job.id) || IsTerminal(s.table, job.id)
  }

  /** A refused claim met a row that was being processed, or had expired. */
  predicate BusyOk(t: Table, pc: Pc) {
    pc.Busy? ==> pc.job.id in t && (t[pc.job.id].status == Processing || t[pc.job.id].status == Expired)
  }

  ghost predicate DoneOk(log: seq<Message>, s: Consumer) {
    s.pc.Done? && s.committed < |log| ==> Settled(s.store, log[s.committed])
  }

  ghost predicate Invariant(c: Config, log: seq<Message>, s: Consumer) {
    && c.maxAttempts >= 1
    && TableOk(c, s.store.table) && PcOk(c, s.store.table, s.pc)
    && OffsetsOk(log, s)
    && Fresh(s.store.table, s.pc)
    && BusyOk(s.store.table, s.pc)
    && DoneOk(log, s)
  }

  /** The consumer is one worker of the multi-worker system, so what holds of all systems holds of it. */
  lemma ConsumerIsOneWorker(c: Config, log: seq<Message>, s: Consumer, a: Action)
    requires ConsumerStep(c, log, s, a).Some?
    ensures var s' := ConsumerStep(c, log, s, a).value;
            SystemStep(c, System(s.store, [s.pc]), Label(0, a)) == Some(System(s'.store, [s'.pc]))
  {
    hide Act;
    var s' := ConsumerStep(c, log, s, a).value;
    assert [s.pc][0 := s'.pc] == [s'.pc];
  }

  lemma ActBusyOk(c: Config, w: nat, t: Table, pc: Pc, a: Action, e: Effect)
    requires Fresh(t, pc) && (pc.Updating? ==> RowAtOk(c, t, pc.job.id) && pc.job.id in t)
    requires e == Act(c, w, t, pc, a) && e.Effect?
    ensures BusyOk(e.table, e.pc)
  {
  }

  lemma DoneStep(c: Config, log: seq<Message>, s: Consumer, a: Action)
    requires Invariant(c, log, s) && ConsumerStep(c, log, s, a).Some?
    ensures DoneOk(log, ConsumerStep(c, log, s, a).value)
  {
    var s' := ConsumerStep(c, log, s, a).value;
    if s'.pc.Done? {
      assert PcMessage(s.pc, log[s.committed]);
      if s.pc.PublishingRaw? || s.pc.PublishingFinal? || s.pc.PublishingEscape? {
        var last := s'.store.trace[|s.store.trace|];
        assert last in s'.store.trace;
      }
    }
  }

  lemma OffsetsStep(c: Config, log: seq<Message>, s: Consumer, a: Action)
    requires OffsetsOk(log, s) && ConsumerStep(c, log, s, a).Some?
    ensures OffsetsOk(log, ConsumerStep(c, log, s, a).value)
  {
  }

  lemma InvariantStep(c: Config, log: seq<Message>, s: Consumer, a: Action)
    requires Invariant(c, log, s) && ConsumerStep(c, log, s, a).Some?
    ensures Invariant(c, log, ConsumerStep(c, log, s, a).value)
  {
    hide Act;
    var s' := ConsumerStep(c, log, s, a).value;
    var e := Act(c, 0, s.store.table, s.pc, a);
    assert OffsetsOk(log, s') by { OffsetsStep(c, log, s, a); }
    assert TableOk(c, s'.store.table) && PcOk(c, s'.store.table, s'.pc) by { ActOk(c, 0, s.store.table, s.pc, a, e); }
    assert Fresh(s'.store.table, s'.pc) by { ActFresh(c, 0, s.store.table, s.pc, a, 0, e); }
    assert BusyOk(s'.store.table, s'.pc) by { ActBusyOk(c, 0, s.store.table, s.pc, a, e); }
    assert DoneOk(log, s') by { DoneStep(c, log, s, a); }
  }

  lemma {:induction false} RunKeepsInvariant(c: Config, log: seq<Message>, s: Consumer, run: seq<Action>)
    requires Invariant(c, log, s) && ConsumerExec(c, log, s, run).Some?
    ensures Invariant(c, log, ConsumerExec(c, log, s, run).value)
    decreases |run|
  {
    hide Act;
    if run != [] {
      InvariantStep(c, log, s, run[0]);
      RunKeepsInvariant(c, log, ConsumerStep(c, log, s, run[0]).value, run[1..]);
    }
  }

  // ---------------------------------------------------------------------------------------
  // Terminal statuses absorb

  lemma TerminalKept(c: Config, w: nat, t: Table, pc: Pc, a: Action, j: JobId, e: Effect)
    requires RowAtOk(c, t, j) && Fresh(t, pc) && IsTerminal(t, j)
    requires e == Act(c, w, t, pc, a) && e.Effect?
    ensures IsTerminal(e.table, j) && e.table[j].status == t[j].status && e.table[j].attempts == t[j].attempts
  {
  }

  lemma TerminalNotCalled(c: Config, w: nat, t: Table, pc: Pc, a: Action, j: JobId, e: Effect)
    requires Fresh(t, pc) && IsTerminal(t, j)
    requires e == Act(c, w, t, pc, a) && e.Effect?
    ensures Delta(e.event, j, Calls) == 0
  {
  }

  /** Once a row is SENT, FAILED or EXPIRED, redelivery, crashes and time change neither its status
      nor its attempts, and no further send for the job starts. */
  lemma {:induction false} TerminalAbsorbs(c: Config, log: seq<Message>, s: Consumer, run: seq<Action>, j: JobId)
    requires Invariant(c, log, s) && IsTerminal(s.store.table, j)
    requires ConsumerExec(c, log, s, run).Some?
    ensures var s' := ConsumerExec(c, log, s, run).value;
            && IsTerminal(s'.store.table, j)
            && s'.store.table[j].status == s.store.table[j].status
            && s'.store.table[j].attempts == s.store.table[j].attempts
            && Count(s'.store.trace, j, Calls) == Count(s.store.trace, j, Calls)
    decreases |run|
  {
    hide Act;
    if run != [] {
      InvariantStep(c, log, s, run[0]);
      var e := Act(c, 0, s.store.table, s.pc, run[0]);
      CountAfter(s.store, e, j, Calls);
      TerminalKept(c, 0, s.store.table, s.pc, run[0], j, e);
      TerminalNotCalled(c, 0, s.store.table, s.pc, run[0], j, e);
      TerminalAbsorbs(c, log, ConsumerStep(c, log, s, run[0]).value, run[1..], j);
    }
  }

  /** The same from the start: whatever becomes terminal in a run stays as it is in every longer run. */
  lemma TerminalForever(c: Config, log: seq<Message>, first: seq<Action>, second: seq<Action>, j: JobId)
    requires c.maxAttempts >= 1
    requires ConsumerExec(c, log, Start(), first).Some?
    requires IsTerminal(ConsumerExec(c, log, Start(), first).value.store.table, j)
    requires ConsumerExec(c, log, ConsumerExec(c, log, Start(), first).value, second).Some?
    ensures var s := ConsumerExec(c, log, Start(), first).value;
            var s' := ConsumerExec(c, log, s, second).value;
            && IsTerminal(s'.store.table, j)
            && s'.store.table[j].status == s.store.table[j].status
            && s'.store.table[j].attempts == s.store.table[j].attempts
            && Count(s'.store.trace, j, Calls) == Count(s.store.trace, j, Calls)
  {
    RunKeepsInvariant(c, log, Start(), first);
    TerminalAbsorbs(c, log, ConsumerExec(c, log, Start(), first).value, second, j);
  }

  // ---------------------------------------------------------------------------------------
  // Counting

  function HasStatus(t: Table, j: JobId, status: Status): nat {
    if j in t && t[j].status == status then 1 else 0
  }

  function AwaitingSent(pc: Pc, j: JobId): nat {
    if pc.SavingSent? && pc.job.id == j then 1 else 0
  }

  function PublishingFailed(pc: Pc, j: JobId): nat {
    if (pc.PublishingFinal? || (pc.PublishingEscape? && pc.final)) && pc.job.id == j then 1 else 0
  }

  /** Every call is stored, lost or in flight; every successful send is SENT, unrecorded or about to
      be saved; every stored FAILED is published, given up or about to be published. */
  ghost predicate Conserved(s: Consumer, j: JobId) {
    var trace, t := s.store.trace, s.store.table;
    && Count(trace, j, Calls) == StoredAttempts(t, j) + Count(trace, j, LostWindows) + InFlight(s.pc, j)
    && Count(trace, j, Sends) == HasStatus(t, j, Sent) + Count(trace, j, Unrecorded) + AwaitingSent(s.pc, j)
    && HasStatus(t, j, Failed) == Count(trace, j, FinalDlqs) + Count(trace, j, Abandons) + PublishingFailed(s.pc, j)
  }

  lemma ActConservesCalls(c: Config, w: nat, t: Table, pc: Pc, a: Action, j: JobId, e: Effect)
    requires PcOk(c, t, pc) && Fresh(t, pc)
    requires e == Act(c, w, t, pc, a) && e.Effect?
    ensures Delta(e.event, j, Calls) + StoredAttempts(t, j) + InFlight(pc, j)
         == Delta(e.event, j, LostWindows) + StoredAttempts(e.table, j) + InFlight(e.pc, j)
  {
  }

  lemma ActConservesSends(c: Config, w: nat, t: Table, pc: Pc, a: Action, j: JobId, e: Effect)
    requires Fresh(t, pc)
    requires e == Act(c, w, t, pc, a) && e.Effect?
    ensures Delta(e.event, j, Sends) + HasStatus(t, j, Sent) + AwaitingSent(pc, j)
         == Delta(e.event, j, Unrecorded) + HasStatus(e.table, j, Sent) + AwaitingSent(e.pc, j)
  {
  }

  lemma ActConservesFailures(c: Config, w: nat, t: Table, pc: Pc, a: Action, j: JobId, e: Effect)
    requires Fresh(t, pc)
    requires e == Act(c, w, t, pc, a) && e.Effect?
    ensures HasStatus(e.table, j, Failed) + PublishingFailed(pc, j)
         == HasStatus(t, j, Failed) + Delta(e.event, j, FinalDlqs) + Delta(e.event, j, Abandons) + PublishingFailed(e.pc, j)
  {
  }

  lemma ConservedStep(c: Config, log: seq<Message>, s: Consumer, a: Action, j: JobId)
    requires Invariant(c, log, s) && Conserved(s, j)
    requires ConsumerStep(c, log, s, a).Some?
    ensures Conserved(ConsumerStep(c, log, s, a).value, j)
  {
    hide Act, Count, Delta, RowOk, InFlight, AwaitingSent, PublishingFailed, HasStatus;
    var e := Act(c, 0, s.store.table, s.pc, a);
    CountAfter(s.store, e, j, Calls);
    CountAfter(s.store, e, j, LostWindows);
    CountAfter(s.store, e, j, Sends);
    CountAfter(s.store, e, j, Unrecorded);
    CountAfter(s.store, e, j, FinalDlqs);
    CountAfter(s.store, e, j, Abandons);
    ActConservesCalls(c, 0, s.store.table, s.pc, a, j, e);
    ActConservesSends(c, 0, s.store.table, s.pc, a, j, e);
    ActConservesFailures(c, 0, s.store.table, s.pc, a, j, e);
  }

  lemma {:induction false} RunKeepsConserved(c: Config, log: seq<Message>, s: Consumer, run: seq<Action>, j: JobId)
    requires Invariant(c, log, s) && Conserved(s, j)
    requires ConsumerExec(c, log, s, run).Some?
    ensures Conserved(ConsumerExec(c, log, s, run).value, j)
    decreases |run|
  {
    hide Act;
    if run != [] {
      InvariantStep(c, log, s, run[0]);
      ConservedStep(c, log, s, run[0], j);
      RunKeepsConserved(c, log, ConsumerStep(c, log, s, run[0]).value, run[1..], j);
    }
  }

  /** Calls equal stored attempts plus lost windows plus the one in flight, and so exceed the budget
      by at most the lost windows. */
  lemma AttemptsConserved(c: Config, log: seq<Message>, run: seq<Action>, j: JobId)
    requires c.maxAttempts >= 1
    requires ConsumerExec(c, log, Start(), run).Some?
    ensures var s := ConsumerExec(c, log, Start(), run).value;
            var calls, lost := Count(s.store.trace, j, Calls), Count(s.store.trace, j, LostWindows);
            calls == StoredAttempts(s.store.table, j) + lost + InFlight(s.pc, j) && calls <= c.maxAttempts + lost
  {
    hide Act;
    RunKeepsInvariant(c, log, Start(), run);
    RunKeepsConserved(c, log, Start(), run, j);
    var s := ConsumerExec(c, log, Start(), run).value;
    if j in s.store.table {
      assert RowOk(c, s.store.table[j]);
    }
  }

  /** Along every run of the consumer the stored attempts of every job only grow. */
  lemma {:induction false} StoredAttemptsGrow(c: Config, log: seq<Message>, s: Consumer, run: seq<Action>, j: JobId)
    requires Invariant(c, log, s) && ConsumerExec(c, log, s, run).Some?
    ensures StoredAttempts(s.store.table, j) <= StoredAttempts(ConsumerExec(c, log, s, run).value.store.table, j)
    decreases |run|
  {
    hide Act;
    if run != [] {
      InvariantStep(c, log, s, run[0]);
      ActFresh(c, 0, s.store.table, s.pc, run[0], j, Act(c, 0, s.store.table, s.pc, run[0]));
      StoredAttemptsGrow(c, log, ConsumerStep(c, log, s, run[0]).value, run[1..], j);
    }
  }

  /** Successful sends: at most one more than those whose SENT was never stored. */
  lemma SendsBounded(c: Config, log: seq<Message>, run: seq<Action>, j: JobId)
    requires c.maxAttempts >= 1
    requires ConsumerExec(c, log, Start(), run).Some?
    ensures var s := ConsumerExec(c, log, Start(), run).value;
            var sends, unrecorded := Count(s.store.trace, j, Sends), Count(s.store.trace, j, Unrecorded);
            && sends <= 1 + unrecorded
            && (!s.pc.SavingSent? ==>
                  (sends == 1 + unrecorded <==> j in s.store.table && s.store.table[j].status == Sent))
  {
    hide Act;
    RunKeepsInvariant(c, log, Start(), run);
    RunKeepsConserved(c, log, Start(), run, j);
  }

  predicate Reliable(run: seq<Action>) {
    forall a | a in run :: !a.Crash? && (a.SaveStatus? ==> a.error.None?)
  }

  lemma ActRecords(c: Config, w: nat, t: Table, pc: Pc, a: Action, j: JobId, e: Effect)
    requires !a.Crash? && (a.SaveStatus? ==> a.error.None?)
    requires e == Act(c, w, t, pc, a) && e.Effect?
    ensures Delta(e.event, j, Unrecorded) == 0
  {
  }

  lemma {:induction false} ReliableRecordsAll(c: Config, log: seq<Message>, s: Consumer, run: seq<Action>, j: JobId)
    requires Reliable(run) && ConsumerExec(c, log, s, run).Some?
    ensures Count(ConsumerExec(c, log, s, run).value.store.trace, j, Unrecorded) == Count(s.store.trace, j, Unrecorded)
    decreases |run|
  {
    hide Act;
    if run != [] {
      assert run[0] in run;
      var e := Act(c, 0, s.store.table, s.pc, run[0]);
      CountAfter(s.store, e, j, Unrecorded);
      ActRecords(c, 0, s.store.table, s.pc, run[0], j, e);
      ReliableRecordsAll(c, log, ConsumerStep(c, log, s, run[0]).value, run[1..], j);
    }
  }

  /** Over any log with any number of copies of each job, a consumer without crashes and with
      reliable saves makes at most one successful send per job, and one exactly when the row is SENT. */
  lemma Idempotence(c: Config, log: seq<Message>, run: seq<Action>, j: JobId)
    requires c.maxAttempts >= 1 && Reliable(run)
    requires ConsumerExec(c, log, Start(), run).Some?
    ensures var s := ConsumerExec(c, log, Start(), run).value;
            var sends := Count(s.store.trace, j, Sends);
            && sends <= 1
            && (!s.pc.SavingSent? ==> (sends == 1 <==> j in s.store.table && s.store.table[j].status == Sent))
  {
    hide Act;
    SendsBounded(c, log, run, j);
    ReliableRecordsAll(c, log, Start(), run, j);
  }

  /** When the worker is not publishing it, a FAILED job has its own DLQ entry, exactly one, if and
      only if the worker was not stopped between storing FAILED and publishing. */
  lemma FailedIsPublishedIff(c: Config, log: seq<Message>, run: seq<Action>, j: JobId)
    requires c.maxAttempts >= 1
    requires ConsumerExec(c, log, Start(), run).Some?
    ensures var s := ConsumerExec(c, log, Start(), run).value;
            var entries, abandoned := Count(s.store.trace, j, FinalDlqs), Count(s.store.trace, j, Abandons);
            PublishingFailed(s.pc, j) == 0 && j in s.store.table && s.store.table[j].status == Failed ==>
              entries <= 1 && (entries == 1 <==> abandoned == 0)
  {
    hide Act;
    RunKeepsInvariant(c, log, Start(), run);
    RunKeepsConserved(c, log, Start(), run, j);
  }
}
