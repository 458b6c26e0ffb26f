/** What goes wrong when several workers hold one job, and exactly when it does not. */
module SharedJobs {
  import opened Delivery
  import opened WorkerProtocol
  import opened MultiWorker

  /** A worker past its skip check that can still overwrite a SENT row of job j. */
  predicate Threatens(c: Config, pc: Pc, j: JobId) {
    match pc
    case CheckingExpiry(job, _) => job.id == j && job.expiresAt.Some?
    case SavingExpired(job, _) => job.id == j
    case Looping(job, n) => job.id == j && n < c.maxAttempts
    case Sending(job, _) => job.id == j
    case SavingSent(job, _) => job.id == j
    case SavingFailure(job, _, _) => job.id == j
    case _ => false
  }

  ghost predicate IsSent(s: System, j: JobId) {
    j in s.store.table && s.store.table[j].status == Sent
  }

  ghost predicate Unthreatened(c: Config, s: System, j: JobId) {
    forall w | 0 <= w < |s.workers| :: !Threatens(c, s.workers[w], j)
  }

  ghost predicate StaysSent(c: Config, s: System, j: JobId) {
    forall run | Exec(c, s, run).Some? :: IsSent(Exec(c, s, run).value, j)
  }

  lemma {:induction false} SentIsKept(c: Config, s: System, run: seq<Label>, j: JobId)
    requires IsSent(s, j) && Unthreatened(c, s, j) && Exec(c, s, run).Some?
    ensures IsSent(Exec(c, s, run).value, j)
    decreases |run|
  {
    if run != [] {
      var l, s' := run[0], SystemStep(c, s, run[0]).value;
      assert !Threatens(c, s.workers[l.worker], j);
      assert IsSent(s', j) && Unthreatened(c, s', j);
      SentIsKept(c, s', run[1..], j);
    }
  }

  function Distance(pc: Pc): nat {
    if pc.Looping? then 3 else if pc.Sending? then 2 else if pc.SavingSent? || pc.CheckingExpiry? then 1 else 0
  }

  lemma {:induction false} SentIsOverwritten(c: Config, s: System, w: nat, j: JobId) returns (run: seq<Label>)
    requires IsSent(s, j) && w < |s.workers| && Threatens(c, s.workers[w], j)
    ensures Exec(c, s, run).Some? && !IsSent(Exec(c, s, run).value, j)
    decreases Distance(s.workers[w])
  {
    var pc := s.workers[w];
    var a :=
      match pc
      case CheckingExpiry(job, _) => CheckExpiry(job.expiresAt.value + 1)
      case Looping(_, _) => Attempt
      case Sending(_, _) => SendReturns(Some("refused"))
      case SavingSent(_, _) => SaveStatus(0, Some("connection lost"))
      case _ => SaveStatus(0, None);
    var l := Label(w, a);
    var next := SystemStep(c, s, l).value;
    if pc.SavingExpired? || pc.SavingFailure? {
      run := [l];
      assert run[1..] == [];
    } else {
      var rest := SentIsOverwritten(c, next, w, j);
      run := [l] + rest;
      assert run[1..] == rest;
    }
  }

  /** A SENT row is safe in every continuation exactly when no worker is past its skip check with
      the power to write: not one asleep in the loop, not one about to find the job expired. */
  lemma SentAbsorbingIff(c: Config, s: System, j: JobId)
    requires IsSent(s, j)
    ensures StaysSent(c, s, j) <==> Unthreatened(c, s, j)
  {
    if Unthreatened(c, s, j) {
      forall run | Exec(c, s, run).Some?
        ensures IsSent(Exec(c, s, run).value, j)
      {
        SentIsKept(c, s, run, j);
      }
    } else {
      var w: nat :| w < |s.workers| && Threatens(c, s.workers[w], j);
      var run := SentIsOverwritten(c, s, w, j);
    }
  }

  // ---------------------------------------------------------------------------------------
  // Stored attempts

  predicate Open(t: Table, job: Job, n: nat) {
    StoredAttempts(t, job.id) == n && (job.id in t ==> !t[job.id].status.Sent? && !t[job.id].status.Failed?)
  }

  predicate Held(t: Table, job: Job, n: nat) {
    job.id in t && t[job.id].attempts == n && !t[job.id].status.Terminal()
  }

  /** The worker's count is the stored one, which holds while nobody else writes. */
  predicate Fresh(t: Table, pc: Pc) {
    match pc
    case CheckingExpiry(job, snap) => Open(t, job, snap)
    case SavingExpired(job, snap) => Open(t, job, snap)
    case Inserting(job, snap) => Open(t, job, snap)
    case Updating(job, snap, _) => Open(t, job, snap)
    case Looping(job, n) => Held(t, job, n)
    case Sending(job, n) => n >= 1 && Held(t, job, n - 1)
    case SavingSent(job, n) => n >= 1 && Held(t, job, n - 1)
    case SavingFailure(job, n, _) => n >= 1 && Held(t, job, n - 1)
    case PublishingFinal(job, _) => job.id in t && t[job.id].status == Failed
    case PublishingEscape(job, final) => final ==> job.id in t && t[job.id].status == Failed
    case _ => true
  }

  lemma ActFreshInLoop(c: Config, w: nat, t: Table, pc: Pc, a: Action, e: Effect)
    requires InLoop(pc) && PcOk(c, t, pc) && Fresh(t, pc)
    requires e == Act(c, w, t, pc, a) && e.Effect?
    ensures Fresh(e.table, e.pc)
  {
    hide Prepare, ClaimJob;
  }

  lemma ActFreshOutside(c: Config, w: nat, t: Table, pc: Pc, a: Action, e: Effect)
    requires !InLoop(pc) && Fresh(t, pc)
    requires pc.Reading? ==> RowAtOk(c, t, pc.job.id)
    requires e == Act(c, w, t, pc, a) && e.Effect?
    ensures Fresh(e.table, e.pc)
  {
    hide Loop;
  }

  lemma ActAttemptsGrow(c: Config, w: nat, t: Table, pc: Pc, a: Action, j: JobId, e: Effect)
    requires Fresh(t, pc)
    requires e == Act(c, w, t, pc, a) && e.Effect?
    ensures StoredAttempts(t, j) <= StoredAttempts(e.table, j)
  {
  }

  lemma ActFresh(c: Config, w: nat, t: Table, pc: Pc, a: Action, j: JobId, e: Effect)
    requires TableOk(c, t) && PcOk(c, t, pc) && Fresh(t, pc)
    requires e == Act(c, w, t, pc, a) && e.Effect?
    ensures Fresh(e.table, e.pc) && StoredAttempts(t, j) <= StoredAttempts(e.table, j)
  {
    hide Act, PcOk, Fresh;
    ActAttemptsGrow(c, w, t, pc, a, j, e);
    if InLoop(pc) {
      ActFreshInLoop(c, w, t, pc, a, e);
    } else {
      ActFreshOutside(c, w, t, pc, a, e);
    }
  }

  ghost predicate AttemptsNeverFall(c: Config, n: nat) {
    forall run, l, j ::
      var before := Exec(c, Init(n), run);
      before.Some? && SystemStep(c, before.value, l).Some? ==>
        StoredAttempts(before.value.store.table, j)
        <= StoredAttempts(SystemStep(c, before.value, l).value.store.table, j)
  }

  lemma {:induction false} OneWorkerStaysFresh(c: Config, s: System, run: seq<Label>)
    requires c.maxAttempts >= 1 && SystemOk(c, s) && |s.workers| <= 1
    requires forall w | 0 <= w < |s.workers| :: Fresh(s.store.table, s.workers[w])
    requires Exec(c, s, run).Some?
    ensures var s' := Exec(c, s, run).value;
            SystemOk(c, s') && |s'.workers| <= 1
            && forall w | 0 <= w < |s'.workers| :: Fresh(s'.store.table, s'.workers[w])
    decreases |run|
  {
    hide Act;
    if run != [] {
      SystemStepOk(c, s, run[0]);
      ActFresh(c, run[0].worker, s.store.table, s.workers[run[0].worker], run[0].action, 0,
               Act(c, run[0].worker, s.store.table, s.workers[run[0].worker], run[0].action));
      OneWorkerStaysFresh(c, SystemStep(c, s, run[0]).value, run[1..]);
    }
  }

  lemma Extend(c: Config, s: System, run: seq<Label>, l: Label)
    requires Exec(c, s, run).Some? && SystemStep(c, Exec(c, s, run).value, l).Some?
    ensures Exec(c, s, run + [l]) == SystemStep(c, Exec(c, s, run).value, l)
  {
    hide SystemStep;
    ExecConcat(c, s, run, [l]);
    assert [l][1..] == [];
  }

  /** n workers of which only the first two have started. */
  datatype Pair = Pair(store: Store, first: Pc, second: Pc)

  function Whole(p: Pair, n: nat): System
    requires n >= 2
  {
    System(p.store, [p.first, p.second] + seq(n - 2, _ => Idle))
  }

  lemma AdvancePair(c: Config, n: nat, run: seq<Label>, p: Pair, l: Label) returns (run': seq<Label>, p': Pair)
    requires n >= 2 && Exec(c, Init(n), run) == Some(Whole(p, n)) && l.worker <= 1
    requires Act(c, l.worker, p.store.table, if l.worker == 0 then p.first else p.second, l.action).Effect?
    ensures Exec(c, Init(n), run') == Some(Whole(p', n))
    ensures SystemStep(c, Whole(p, n), l) == Some(Whole(p', n))
    ensures var e := Act(c, l.worker, p.store.table, if l.worker == 0 then p.first else p.second, l.action);
            p' == if l.worker == 0 then Pair(p.store.After(e), e.pc, p.second) else Pair(p.store.After(e), p.first, e.pc)
  {
    hide Act;
    var e := Act(c, l.worker, p.store.table, if l.worker == 0 then p.first else p.second, l.action);
    p' := if l.worker == 0 then Pair(p.store.After(e), e.pc, p.second) else Pair(p.store.After(e), p.first, e.pc);
    run' := run + [l];
    assert Whole(p, n).workers[l.worker := e.pc] == Whole(p', n).workers;
    Extend(c, Init(n), run, l);
  }

  const SOON: Job := Job(0, 0, Email, None, Some(0))

  /** At instant 0 the second worker finds the new job unexpired. */
  lemma SecondChecks(c: Config, n: nat) returns (run: seq<Label>, p: Pair)
    requires c.maxAttempts >= 1 && n >= 2
    ensures Exec(c, Init(n), run) == Some(Whole(p, n)) && p == Pair(Store(map[], []), Idle, Inserting(SOON, 0))
  {
    run, p := [], Pair(Store(map[], []), Idle, Idle);
    assert Whole(p, n) == Init(n);
    run, p := AdvancePair(c, n, run, p, Label(1, Receive(Valid(SOON))));
    run, p := AdvancePair(c, n, run, p, Label(1, Read(true)));
    run, p := AdvancePair(c, n, run, p, Label(1, CheckExpiry(0)));
  }

  /** At instant 1 the first worker finds it expired. */
  lemma FirstChecks(c: Config, n: nat) returns (run: seq<Label>, p: Pair)
    requires c.maxAttempts >= 1 && n >= 2
    ensures Exec(c, Init(n), run) == Some(Whole(p, n))
    ensures p == Pair(Store(map[], []), SavingExpired(SOON, 0), Inserting(SOON, 0))
  {
    hide ClaimJob, Loop, Halt, Exec, SystemStep;
    run, p := SecondChecks(c, n);
    run, p := AdvancePair(c, n, run, p, Label(0, Receive(Valid(SOON))));
    run, p := AdvancePair(c, n, run, p, Label(0, Read(true)));
    run, p := AdvancePair(c, n, run, p, Label(0, CheckExpiry(1)));
  }

  /** And the second claims it. */
  lemma SecondClaims(c: Config, n: nat) returns (run: seq<Label>, p: Pair)
    requires c.maxAttempts >= 1 && n >= 2
    ensures Exec(c, Init(n), run) == Some(Whole(p, n))
    ensures p == Pair(Store(map[0 := Row(0, Email, Processing, 0, None, None, Some(1))], [JobEvent(1, 0, Claimed(0, 1, true))]),
                      SavingExpired(SOON, 0), Looping(SOON, 0))
  {
    hide Prepare, Loop, Halt, Exec, SystemStep;
    run, p := FirstChecks(c, n);
    run, p := AdvancePair(c, n, run, p, Label(1, Insert(1, true)));
  }

  lemma SecondSends(c: Config, n: nat) returns (run: seq<Label>, p: Pair)
    requires c.maxAttempts >= 1 && n >= 2
    ensures Exec(c, Init(n), run) == Some(Whole(p, n))
    ensures p.store.table == map[0 := Row(0, Email, Processing, 0, None, None, Some(1))]
    ensures p.first == SavingExpired(SOON, 0) && p.second == SavingSent(SOON, 1)
  {
    hide Prepare, ClaimJob, Halt, Exec, SystemStep;
    run, p := SecondClaims(c, n);
    run, p := AdvancePair(c, n, run, p, Label(1, Attempt));
    run, p := AdvancePair(c, n, run, p, Label(1, SendReturns(None)));
  }

  /** Two workers read the same new job, one just before and one just after it expires; the one delivers
      it, the other stores its stale snapshot over SENT. No clock goes back. */
  lemma StaleSnapshotRun(c: Config, n: nat) returns (run: seq<Label>, l: Label)
    requires c.maxAttempts >= 1 && n >= 2
    ensures Exec(c, Init(n), run).Some?
    ensures var s := Exec(c, Init(n), run).value;
            && IsSent(s, 0) && s.store.table[0].attempts == 1
            && SystemStep(c, s, l).Some?
            && SystemStep(c, s, l).value.store.table[0].status == Expired
            && SystemStep(c, s, l).value.store.table[0].attempts == 0
  {
    var p;
    run, p := SecondSends(c, n);
    run, p := AdvancePair(c, n, run, p, Label(1, SaveStatus(1, None)));
    l := Label(0, SaveStatus(1, None));
    var _, _ := AdvancePair(c, n, run, p, l);
  }

  /** Stored attempts are monotone in every run exactly when there is at most one worker. */
  lemma AttemptsMonotoneIff(c: Config, n: nat)
    requires c.maxAttempts >= 1
    ensures AttemptsNeverFall(c, n) <==> n <= 1
  {
    hide Act;
    if n <= 1 {
      forall run, l, j |
        Exec(c, Init(n), run).Some? && SystemStep(c, Exec(c, Init(n), run).value, l).Some?
        ensures StoredAttempts(Exec(c, Init(n), run).value.store.table, j)
             <= StoredAttempts(SystemStep(c, Exec(c, Init(n), run).value, l).value.store.table, j)
      {
        OneWorkerStaysFresh(c, Init(n), run);
        var s := Exec(c, Init(n), run).value;
        ActFresh(c, l.worker, s.store.table, s.workers[l.worker], l.action, j,
                 Act(c, l.worker, s.store.table, s.workers[l.worker], l.action));
      }
    } else {
      var run, l := StaleSnapshotRun(c, n);
      assert StoredAttempts(Exec(c, Init(n), run).value.store.table, 0) == 1;
    }
  }
}
