/** What a committed offset promises: which messages below it are accounted for, and exactly when
    all of them are. */
module AtLeastOnce {
  import opened Delivery
  import opened WorkerProtocol
  import opened History
  import opened MultiWorker
  import opened SharedJobs
  import opened SingleConsumer
  import opened Environment

  ghost predicate AllSettled(log: seq<Message>, s: Consumer) {
    forall i | 0 <= i < s.committed && i < |log| :: Settled(s.store, log[i])
  }

  /** Every message below the committed offset is settled at every state of the run. */
  ghost predicate SettledThroughout(c: Config, log: seq<Message>, s: Consumer, run: seq<Action>)
    requires ConsumerExec(c, log, s, run).Some?
    decreases |run|
  {
    AllSettled(log, s) && (run != [] ==> SettledThroughout(c, log, ConsumerStep(c, log, s, run[0]).value, run[1..]))
  }

  /** A commit on the branch of handle_job that returns because the claim was refused, the row still
      PROCESSING, for a job no DLQ entry speaks of. */
  ghost predicate Drops(s: Consumer, a: Action) {
    && a.Commit? && s.pc.Busy? && !InDlq(s.store.trace, s.pc.job.id)
    && HasStatus(s.store.table, s.pc.job.id, Processing) == 1
  }

  ghost predicate NeverDrops(c: Config, log: seq<Message>, s: Consumer, run: seq<Action>)
    requires ConsumerExec(c, log, s, run).Some?
    decreases |run|
  {
    run != [] ==> !Drops(s, run[0]) && NeverDrops(c, log, ConsumerStep(c, log, s, run[0]).value, run[1..])
  }

  lemma SettledStays(c: Config, log: seq<Message>, s: Consumer, a: Action, m: Message)
    requires Invariant(c, log, s) && Settled(s.store, m)
    requires ConsumerStep(c, log, s, a).Some?
    ensures Settled(ConsumerStep(c, log, s, a).value.store, m)
  {
    hide Act;
    var e := Act(c, 0, s.store.table, s.pc, a);
    var trace, trace' := s.store.trace, s.store.After(e).trace;
    assert forall i | 0 <= i < |trace| :: trace'[i] == trace[i];
    if m.Valid? && IsTerminal(s.store.table, m.job.id) {
      TerminalKept(c, 0, s.store.table, s.pc, a, m.job.id, e);
    } else if m.Valid? {
      var i :| 0 <= i < |trace| && trace[i].JobEvent? && trace[i].job == m.job.id && trace[i].kind.Dlq?;
      assert trace'[i].JobEvent? && trace'[i].job == m.job.id && trace'[i].kind.Dlq?;
    } else {
      var i :| 0 <= i < |trace| && trace[i].RawDlq? && trace[i].raw == m.raw;
      assert trace'[i].RawDlq? && trace'[i].raw == m.raw;
    }
  }

  /** The committed offset never falls, and moves only to the message just handled. */
  lemma CommittedOffset(c: Config, log: seq<Message>, s: Consumer, a: Action)
    requires OffsetsOk(log, s) && ConsumerStep(c, log, s, a).Some?
    ensures var s' := ConsumerStep(c, log, s, a).value;
            && s.committed <= s'.committed <= s.committed + 1
            && (s'.committed > s.committed ==> a.Commit? && (s.pc.Done? || s.pc.Busy?) && s'.committed <= |log|)
  {
    if a.Commit? {
      assert s.pc.Done? || s.pc.Busy?;
    }
  }

  lemma CommitKeepsStore(c: Config, log: seq<Message>, s: Consumer, a: Action)
    requires a.Commit? && (s.pc.Done? || s.pc.Busy?) && ConsumerStep(c, log, s, a).Some?
    ensures ConsumerStep(c, log, s, a).value.store == s.store
  {
    hide Prepare, ClaimJob, Loop;
  }

  lemma CommitSettles(c: Config, log: seq<Message>, s: Consumer, a: Action)
    requires Invariant(c, log, s) && AllSettled(log, s)
    requires ConsumerStep(c, log, s, a).Some?
    ensures AllSettled(log, ConsumerStep(c, log, s, a).value) <==> !Drops(s, a)
  {
    hide Act;
    var s' := ConsumerStep(c, log, s, a).value;
    CommittedOffset(c, log, s, a);
    forall i | 0 <= i < s.committed && i < |log| ensures Settled(s'.store, log[i]) {
      SettledStays(c, log, s, a, log[i]);
    }
    if s'.committed > s.committed {
      assert s'.store == s.store by { CommitKeepsStore(c, log, s, a); }
      assert s.pc.Done? ==> Settled(s.store, log[s.committed]);
      assert s.pc.Busy? ==> log[s.committed] == Valid(s.pc.job);
    } else {
      assert !Drops(s, a);
    }
  }

  lemma {:induction false} SettledExactly(c: Config, log: seq<Message>, s: Consumer, run: seq<Action>)
    requires Invariant(c, log, s) && AllSettled(log, s)
    requires ConsumerExec(c, log, s, run).Some?
    ensures SettledThroughout(c, log, s, run) <==> NeverDrops(c, log, s, run)
    decreases |run|
  {
    hide ConsumerStep, AllSettled, Drops;
    if run != [] {
      var s' := ConsumerStep(c, log, s, run[0]).value;
      InvariantStep(c, log, s, run[0]);
      CommitSettles(c, log, s, run[0]);
      if AllSettled(log, s') {
        SettledExactly(c, log, s', run[1..]);
      } else {
        assert !SettledThroughout(c, log, s', run[1..]);
      }
    }
  }

  // ---------------------------------------------------------------------------------------
  // The condition in terms of leases

  /** The claim's UPDATE meets a PROCESSING row whose lease has not run out. */
  predicate MeetsLease(c: Config, s: Consumer, a: Action) {
    && a.Update? && a.ok && s.pc.Updating? && s.pc.job.id in s.store.table
    && s.store.table[s.pc.job.id].status == Processing
    && s.store.table[s.pc.job.id].startedAt.Some?
    && s.store.table[s.pc.job.id].startedAt.value >= s.pc.now - c.staleAfter
  }

  /** A claim that meets a running lease, of a job no DLQ entry speaks of, is followed by a commit. */
  ghost predicate CommitsLeased(c: Config, s: Consumer, run: seq<Action>) {
    |run| >= 2 && MeetsLease(c, s, run[0]) && run[1].Commit? && !InDlq(s.store.trace, s.pc.job.id)
  }

  ghost predicate NeverCommitsLeased(c: Config, log: seq<Message>, s: Consumer, run: seq<Action>)
    requires ConsumerExec(c, log, s, run).Some?
    decreases |run|
  {
    run != [] ==>
      && !CommitsLeased(c, s, run)
      && NeverCommitsLeased(c, log, ConsumerStep(c, log, s, run[0]).value, run[1..])
  }

  /** The refused claim of a row that is not on lease met an expired one. */
  ghost predicate BusyExpired(s: Consumer) {
    s.pc.Busy? ==> HasStatus(s.store.table, s.pc.job.id, Processing) == 0
  }

  lemma BusyOnlyOnLease(c: Config, log: seq<Message>, s: Consumer, a: Action)
    requires Invariant(c, log, s) && !MeetsLease(c, s, a)
    requires ConsumerStep(c, log, s, a).Some?
    ensures BusyExpired(ConsumerStep(c, log, s, a).value)
  {
    assert s.pc.Updating? && s.pc.job.id in s.store.table ==> RowOk(c, s.store.table[s.pc.job.id]);
  }

  /** The claim that meets a running lease is refused, and leaves the row and the DLQ as they are. */
  lemma LeaseRefuses(c: Config, log: seq<Message>, s: Consumer, a: Action)
    requires MeetsLease(c, s, a) && ConsumerStep(c, log, s, a).Some?
    ensures var s' := ConsumerStep(c, log, s, a).value;
            && s'.pc == Busy(s.pc.job) && HasStatus(s'.store.table, s.pc.job.id, Processing) == 1
            && (InDlq(s'.store.trace, s.pc.job.id) <==> InDlq(s.store.trace, s.pc.job.id))
  {
    hide Prepare, Loop, Halt;
    var trace, trace' := s.store.trace, ConsumerStep(c, log, s, a).value.store.trace;
    assert |trace'| == |trace| + 1 && !trace'[|trace|].kind.Dlq?;
    assert forall i | 0 <= i < |trace| :: trace'[i] == trace[i];
  }

  /** From Busy the worker commits or stops. */
  lemma BusyLeaves(c: Config, log: seq<Message>, s: Consumer, a: Action)
    requires s.pc.Busy? && ConsumerStep(c, log, s, a).Some?
    ensures (a.Commit? || a.Crash?) && ConsumerStep(c, log, s, a).value.pc == Idle
  {
    hide Prepare, ClaimJob, Loop;
  }

  lemma UpdateOnly(c: Config, s: Consumer, a: Action)
    ensures MeetsLease(c, s, a) ==> a.Update? && s.pc.Updating?
  {
  }

  lemma {:induction false} DropsLeasedOnly(c: Config, log: seq<Message>, s: Consumer, run: seq<Action>)
    requires Invariant(c, log, s) && BusyExpired(s)
    requires ConsumerExec(c, log, s, run).Some?
    ensures NeverDrops(c, log, s, run) <==> NeverCommitsLeased(c, log, s, run)
    decreases |run|
  {
    hide ConsumerStep, Invariant, InDlq, MeetsLease;
    if run != [] {
      var s', rest := ConsumerStep(c, log, s, run[0]).value, run[1..];
      InvariantStep(c, log, s, run[0]);
      if !MeetsLease(c, s, run[0]) {
        BusyOnlyOnLease(c, log, s, run[0]);
        DropsLeasedOnly(c, log, s', rest);
      } else {
        LeaseRefuses(c, log, s, run[0]);
        UpdateOnly(c, s, run[0]);
        if rest != [] {
          UpdateOnly(c, s', rest[0]);
          BusyLeaves(c, log, s', rest[0]);
          InvariantStep(c, log, s', rest[0]);
          DropsLeasedOnly(c, log, ConsumerStep(c, log, s', rest[0]).value, rest[1..]);
        }
      }
    }
  }

  /** At-least-once, exactly: with crashes, errors and copies of any message, every message below the
      committed offset is at every moment in the DLQ or terminal, if and only if no claim that meets a
      running lease, of a job that is not in the DLQ, is followed by a commit. */
  lemma AtLeastOnceIff(c: Config, log: seq<Message>, run: seq<Action>)
    requires c.maxAttempts >= 1
    requires ConsumerExec(c, log, Start(), run).Some?
    ensures SettledThroughout(c, log, Start(), run) <==> NeverCommitsLeased(c, log, Start(), run)
  {
    SettledExactly(c, log, Start(), run);
    DropsLeasedOnly(c, log, Start(), run);
  }

  // ---------------------------------------------------------------------------------------
  // Conditions that suffice

  ghost predicate LeasesRespected(c: Config, log: seq<Message>, s: Consumer, run: seq<Action>)
    requires ConsumerExec(c, log, s, run).Some?
    decreases |run|
  {
    run != [] ==> !MeetsLease(c, s, run[0]) && LeasesRespected(c, log, ConsumerStep(c, log, s, run[0]).value, run[1..])
  }

  lemma {:induction false} RespectedNotCommitted(c: Config, log: seq<Message>, s: Consumer, run: seq<Action>)
    requires ConsumerExec(c, log, s, run).Some? && LeasesRespected(c, log, s, run)
    ensures NeverCommitsLeased(c, log, s, run)
    decreases |run|
  {
    hide ConsumerStep, MeetsLease;
    if run != [] {
      RespectedNotCommitted(c, log, ConsumerStep(c, log, s, run[0]).value, run[1..]);
    }
  }

  /** If no interrupted job is redelivered within its lease, delivery is at least once. */
  lemma ConditionalAtLeastOnce(c: Config, log: seq<Message>, run: seq<Action>)
    requires c.maxAttempts >= 1
    requires ConsumerExec(c, log, Start(), run).Some?
    requires LeasesRespected(c, log, Start(), run)
    ensures SettledThroughout(c, log, Start(), run)
  {
    RespectedNotCommitted(c, log, Start(), run);
    AtLeastOnceIff(c, log, run);
  }

  /** The worker stops, or cannot store a failure, while it holds a claim: the row keeps the lease. */
  predicate AbandonsLease(pc: Pc, a: Action) {
    && (pc.Looping? || Calling(pc))
    && (a.Crash? || (pc.SavingFailure? && a.SaveStatus? && a.error.Some?))
  }

  ghost predicate NeverAbandons(c: Config, log: seq<Message>, s: Consumer, run: seq<Action>)
    requires ConsumerExec(c, log, s, run).Some?
    decreases |run|
  {
    run != [] ==> !AbandonsLease(s.pc, run[0]) && NeverAbandons(c, log, ConsumerStep(c, log, s, run[0]).value, run[1..])
  }

  predicate TendedAt(t: Table, pc: Pc, j: JobId) {
    j in t && t[j].status == Processing ==> (pc.Looping? || Calling(pc)) && pc.job.id == j
  }

  /** A PROCESSING row belongs to the job that the worker is attempting. */
  ghost predicate Tended(t: Table, pc: Pc) {
    forall j | j in t :: TendedAt(t, pc, j)
  }

  lemma ActTended(c: Config, w: nat, t: Table, pc: Pc, a: Action, j: JobId, e: Effect)
    requires TendedAt(t, pc, j) && !AbandonsLease(pc, a)
    requires pc.Looping? ==> pc.attempts < c.maxAttempts
    requires e == Act(c, w, t, pc, a) && e.Effect?
    ensures TendedAt(e.table, e.pc, j)
  {
  }

  lemma AbsentTended(t: Table, pc: Pc, j: JobId)
    ensures j !in t ==> TendedAt(t, pc, j)
  {
  }

  lemma TendedMeetsNone(c: Config, s: Consumer, a: Action)
    requires Tended(s.store.table, s.pc)
    ensures !MeetsLease(c, s, a)
  {
    assert s.pc.Updating? && s.pc.job.id in s.store.table ==> TendedAt(s.store.table, s.pc, s.pc.job.id);
  }

  lemma {:induction false} TendedRespects(c: Config, log: seq<Message>, s: Consumer, run: seq<Action>)
    requires Invariant(c, log, s) && Tended(s.store.table, s.pc)
    requires ConsumerExec(c, log, s, run).Some? && NeverAbandons(c, log, s, run)
    ensures LeasesRespected(c, log, s, run)
    ensures var end := ConsumerExec(c, log, s, run).value; Tended(end.store.table, end.pc)
    decreases |run|
  {
    hide Act, AbandonsLease, TendedAt;
    if run != [] {
      var e := Act(c, 0, s.store.table, s.pc, run[0]);
      InvariantStep(c, log, s, run[0]);
      forall j | j in e.table
        ensures TendedAt(e.table, e.pc, j)
      {
        AbsentTended(s.store.table, s.pc, j);
        ActTended(c, 0, s.store.table, s.pc, run[0], j, e);
      }
      TendedMeetsNone(c, s, run[0]);
      TendedRespects(c, log, ConsumerStep(c, log, s, run[0]).value, run[1..]);
    }
  }

  /** Messages are lost only to a worker that stops, or fails to store a failure, between its claim and
      its status write: without that every committed message is settled, whatever else fails. */
  lemma OnlyAbandonedJobsAreLost(c: Config, log: seq<Message>, run: seq<Action>)
    requires c.maxAttempts >= 1
    requires ConsumerExec(c, log, Start(), run).Some? && NeverAbandons(c, log, Start(), run)
    ensures SettledThroughout(c, log, Start(), run)
  {
    TendedRespects(c, log, Start(), run);
    ConditionalAtLeastOnce(c, log, run);
  }

  lemma {:induction false} ProcessNeverAbandons(world: World, s: Consumer, run: seq<Action>, end: Consumer)
    requires Reaches(world, s, run, end)
    requires forall i: nat, n: nat :: world.weather(i).job.attempts(n).saveFailure.None?
    ensures ConsumerExec(world.c, world.log, s, run) == Some(end) && NeverAbandons(world.c, world.log, s, run)
    decreases |run|
  {
    hide ConsumerStep;
    if run != [] {
      ProcessNeverAbandons(world, ConsumerStep(world.c, world.log, s, run[0]).value, run[1..], end);
    }
  }

  lemma {:induction false} ThroughoutAtEnd(c: Config, log: seq<Message>, s: Consumer, run: seq<Action>)
    requires ConsumerExec(c, log, s, run).Some? && SettledThroughout(c, log, s, run)
    ensures AllSettled(log, ConsumerExec(c, log, s, run).value)
    decreases |run|
  {
    hide ConsumerStep, AllSettled;
    if run != [] {
      ThroughoutAtEnd(c, log, ConsumerStep(c, log, s, run[0]).value, run[1..]);
    }
  }

  /** No PROCESSING row, and so no lease, is left by an earlier process. */
  ghost predicate NoLeases(t: Table) {
    forall j | j in t :: t[j].status != Processing
  }

  lemma IdleTended(t: Table, pc: Pc)
    requires pc.Idle?
    ensures Tended(t, pc) <==> NoLeases(t)
  {
    forall j | j in t ensures TendedAt(t, pc, j) <==> t[j].status != Processing {
    }
  }

  /** A process that starts with every committed message settled and no PROCESSING row left by an earlier
      process, and whose failure writes succeed, ends with both, whatever its sender, its other statements
      and its publishes do. So does every sequence of such processes. */
  lemma ProcessSettles(world: World, s: Consumer, run: seq<Action>, end: Consumer)
    requires Invariant(world.c, world.log, s) && AllSettled(world.log, s) && s.pc.Idle? && NoLeases(s.store.table)
    requires Reaches(world, s, run, end)
    requires forall i: nat, n: nat :: world.weather(i).job.attempts(n).saveFailure.None?
    ensures ConsumerExec(world.c, world.log, s, run) == Some(end)
    ensures SettledThroughout(world.c, world.log, s, run) && AllSettled(world.log, end)
    ensures end.pc.Idle? ==> NoLeases(end.store.table)
  {
    hide Invariant, AllSettled, Tended, NoLeases, Reaches, ConsumerExec;
    ReachesExecutes(world, s, run, end);
    ProcessNeverAbandons(world, s, run, end);
    IdleTended(s.store.table, s.pc);
    TendedRespects(world.c, world.log, s, run);
    RespectedNotCommitted(world.c, world.log, s, run);
    DropsLeasedOnly(world.c, world.log, s, run);
    SettledExactly(world.c, world.log, s, run);
    ThroughoutAtEnd(world.c, world.log, s, run);
    if end.pc.Idle? {
      IdleTended(end.store.table, end.pc);
    }
  }
}
