/** Any number of workers on one table, in any interleaving, each free to crash at any step. */
module MultiWorker {
  import opened Delivery
  import opened WorkerProtocol
  import opened History

  datatype System = System(store: Store, workers: seq<Pc>)

  datatype Label = Label(worker: nat, action: Action)

  function Init(n: nat): System {
    System(Store(map[], []), seq(n, _ => Idle))
  }

  function SystemStep(c: Config, s: System, l: Label): Option<System> {
    if l.worker >= |s.workers| then None
    else
      var e := Act(c, l.worker, s.store.table, s.workers[l.worker], l.action);
      if e.Blocked? then None else Some(System(s.store.After(e), s.workers[l.worker := e.pc]))
  }

  function Exec(c: Config, s: System, run: seq<Label>): Option<System>
    decreases |run|
  {
    if run == [] then Some(s)
    else
      match SystemStep(c, s, run[0])
      case None => None
      case Some(next) => Exec(c, next, run[1..])
  }

  lemma {:induction false} ExecConcat(c: Config, s: System, first: seq<Label>, second: seq<Label>)
    requires Exec(c, s, first).Some?
    ensures Exec(c, s, first + second) == Exec(c, Exec(c, s, first).value, second)
    decreases |first|
  {
    hide SystemStep;
    if first == [] {
      assert first + second == second;
    } else {
      ExecConcat(c, SystemStep(c, s, first[0]).value, first[1..], second);
      assert (first + second)[1..] == first[1..] + second;
    }
  }

  // ---------------------------------------------------------------------------------------
  // Rows

  /** Attempts agree with the status, and every column is set exactly for its status. */
  predicate RowOk(c: Config, row: Row) {
    && (match row.status
        case Processing => row.attempts < c.maxAttempts
        case Retrying => 1 <= row.attempts < c.maxAttempts
        case Sent => 1 <= row.attempts <= c.maxAttempts
        case Failed => row.attempts == c.maxAttempts
        case Expired => row.attempts < c.maxAttempts)
    && (row.startedAt.Some? <==> row.status == Processing)
    && (row.sentAt.Some? <==> row.status == Sent)
    && (row.status == Sent ==> row.error.None?)
    && (row.status == Failed || row.status == Retrying || row.status == Expired ==> row.error.Some?)
  }

  /** A worker's snapshot is below the budget, and past the INSERT its job has a row. */
  predicate PcOk(c: Config, t: Table, pc: Pc) {
    match pc
    case CheckingExpiry(_, snap) => snap < c.maxAttempts
    case SavingExpired(_, snap) => snap < c.maxAttempts
    case Inserting(_, snap) => snap < c.maxAttempts
    case Updating(job, snap, _) => snap < c.maxAttempts && job.id in t
    case Looping(job, n) => n < c.maxAttempts && job.id in t
    case Sending(job, n) => 1 <= n <= c.maxAttempts && job.id in t
    case SavingSent(job, n) => 1 <= n <= c.maxAttempts && job.id in t
    case SavingFailure(job, n, _) => 1 <= n <= c.maxAttempts && job.id in t
    case PublishingFinal(job, n) => n == c.maxAttempts && job.id in t
    case _ => true
  }

  predicate RowAtOk(c: Config, t: Table, j: JobId) {
    j in t ==> RowOk(c, t[j])
  }

  ghost predicate TableOk(c: Config, t: Table) {
    forall j | j in t :: RowOk(c, t[j])
  }

  predicate ExtendsAt(t: Table, t': Table, j: JobId) {
    j in t ==> j in t' && t'[j].user == t[j].user && t'[j].channel == t[j].channel
  }

  /** Rows are never deleted and never change their user or channel. */
  ghost predicate Extends(t: Table, t': Table) {
    forall j | j in t :: j in t' && t'[j].user == t[j].user && t'[j].channel == t[j].channel
  }

  ghost predicate SystemOk(c: Config, s: System) {
    && TableOk(c, s.store.table)
    && forall w | 0 <= w < |s.workers| :: PcOk(c, s.store.table, s.workers[w])
  }

  lemma ActKeepsRow(c: Config, w: nat, t: Table, pc: Pc, a: Action, j: JobId, e: Effect)
    requires c.maxAttempts >= 1 && RowAtOk(c, t, j) && PcOk(c, t, pc)
    requires e == Act(c, w, t, pc, a) && e.Effect?
    ensures RowAtOk(c, e.table, j) && ExtendsAt(t, e.table, j)
  {
  }

  lemma ActKeepsPlaceInLoop(c: Config, w: nat, t: Table, pc: Pc, a: Action, e: Effect)
    requires InLoop(pc) && PcOk(c, t, pc)
    requires e == Act(c, w, t, pc, a) && e.Effect?
    ensures PcOk(c, e.table, e.pc)
  {
    hide Prepare, ClaimJob;
  }

  lemma ActKeepsPlaceOutside(c: Config, w: nat, t: Table, pc: Pc, a: Action, e: Effect)
    requires c.maxAttempts >= 1 && !InLoop(pc) && PcOk(c, t, pc)
    requires pc.Reading? ==> RowAtOk(c, t, pc.job.id)
    requires e == Act(c, w, t, pc, a) && e.Effect?
    ensures PcOk(c, e.table, e.pc)
  {
    hide Loop;
  }

  lemma ActOk(c: Config, w: nat, t: Table, pc: Pc, a: Action, e: Effect)
    requires c.maxAttempts >= 1 && TableOk(c, t) && PcOk(c, t, pc)
    requires e == Act(c, w, t, pc, a) && e.Effect?
    ensures TableOk(c, e.table) && PcOk(c, e.table, e.pc) && Extends(t, e.table)
  {
    hide Act, PcOk, RowOk;
    forall j
      ensures j in e.table ==> RowOk(c, e.table[j])
      ensures ExtendsAt(t, e.table, j)
    {
      ActKeepsRow(c, w, t, pc, a, j, e);
    }
    if InLoop(pc) {
      ActKeepsPlaceInLoop(c, w, t, pc, a, e);
    } else {
      ActKeepsPlaceOutside(c, w, t, pc, a, e);
    }
  }

  lemma SystemStepOk(c: Config, s: System, l: Label)
    requires c.maxAttempts >= 1 && SystemOk(c, s)
    requires SystemStep(c, s, l).Some?
    ensures var s' := SystemStep(c, s, l).value;
            SystemOk(c, s') && Extends(s.store.table, s'.store.table)
  {
    hide Act;
    var e := Act(c, l.worker, s.store.table, s.workers[l.worker], l.action);
    ActOk(c, l.worker, s.store.table, s.workers[l.worker], l.action, e);
    forall v | 0 <= v < |s.workers|
      ensures PcOk(c, e.table, s.workers[v])
    {
      assert PcOk(c, s.store.table, s.workers[v]);
    }
  }

  /** Row and column invariants in every multi-worker run, from any state that has them. */
  lemma {:induction false} RunKeepsRows(c: Config, s: System, run: seq<Label>)
    requires c.maxAttempts >= 1 && SystemOk(c, s)
    requires Exec(c, s, run).Some?
    ensures var s' := Exec(c, s, run).value;
            SystemOk(c, s') && Extends(s.store.table, s'.store.table)
    decreases |run|
  {
    hide SystemStep;
    if run != [] {
      SystemStepOk(c, s, run[0]);
      RunKeepsRows(c, SystemStep(c, s, run[0]).value, run[1..]);
    }
  }

  lemma RowInvariant(c: Config, n: nat, run: seq<Label>)
    requires c.maxAttempts >= 1
    requires Exec(c, Init(n), run).Some?
    ensures var t := Exec(c, Init(n), run).value.store.table;
            forall j | j in t :: RowOk(c, t[j])
  {
    RunKeepsRows(c, Init(n), run);
  }

  /** processing_started_at is set on every PROCESSING row a claim can meet, so the IS NULL disjunct
      admits no row that the other two conditions would not. */
  lemma NullLeaseNeverClaims(c: Config, n: nat, run: seq<Label>, j: JobId, staleBefore: int)
    requires c.maxAttempts >= 1
    requires Exec(c, Init(n), run).Some?
    ensures var t := Exec(c, Init(n), run).value.store.table;
            j in t ==>
              (Claimable(t[j], staleBefore) <==>
               t[j].status == Retrying || (t[j].status == Processing && t[j].startedAt.Some? && t[j].startedAt.value < staleBefore))
  {
    RunKeepsRows(c, Init(n), run);
  }

  // ---------------------------------------------------------------------------------------
  // Whose rows

  /** All received jobs of one id agree on user and channel. */
  ghost predicate Agree(run: seq<Label>, owner: JobId -> (nat, Channel)) {
    forall l | l in run && l.action.Receive? && l.action.msg.Valid? :: Owned(l.action.msg.job, owner)
  }

  predicate Owned(job: Job, owner: JobId -> (nat, Channel)) {
    owner(job.id) == (job.user, job.channel)
  }

  predicate PcOwned(pc: Pc, owner: JobId -> (nat, Channel)) {
    !pc.Idle? && !pc.PublishingRaw? && !pc.Done? ==> Owned(pc.job, owner)
  }

  predicate RowOwned(t: Table, j: JobId, owner: JobId -> (nat, Channel)) {
    j in t ==> owner(j) == (t[j].user, t[j].channel)
  }

  ghost predicate AllOwned(s: System, owner: JobId -> (nat, Channel)) {
    && (forall j | j in s.store.table :: RowOwned(s.store.table, j, owner))
    && forall w | 0 <= w < |s.workers| :: PcOwned(s.workers[w], owner)
  }

  lemma ActOwnsRow(c: Config, w: nat, t: Table, pc: Pc, a: Action, j: JobId, owner: JobId -> (nat, Channel), e: Effect)
    requires RowOwned(t, j, owner) && PcOwned(pc, owner)
    requires e == Act(c, w, t, pc, a) && e.Effect?
    ensures RowOwned(e.table, j, owner)
  {
  }

  lemma ActOwnsPlace(c: Config, w: nat, t: Table, pc: Pc, a: Action, owner: JobId -> (nat, Channel), e: Effect)
    requires PcOwned(pc, owner) && (a.Receive? && a.msg.Valid? ==> Owned(a.msg.job, owner))
    requires e == Act(c, w, t, pc, a) && e.Effect?
    ensures PcOwned(e.pc, owner)
  {
    hide Save, InsertClaim, UpdateClaim;
  }

  lemma StepOwned(c: Config, s: System, l: Label, owner: JobId -> (nat, Channel))
    requires AllOwned(s, owner) && (l.action.Receive? && l.action.msg.Valid? ==> Owned(l.action.msg.job, owner))
    requires SystemStep(c, s, l).Some?
    ensures AllOwned(SystemStep(c, s, l).value, owner)
  {
    hide Act, PcOwned, Owned;
    var t, pc := s.store.table, s.workers[l.worker];
    var e := Act(c, l.worker, t, pc, l.action);
    forall j | j in e.table ensures RowOwned(e.table, j, owner) {
      ActOwnsRow(c, l.worker, t, pc, l.action, j, owner, e);
    }
    ActOwnsPlace(c, l.worker, t, pc, l.action, owner, e);
  }

  lemma {:induction false} RunOwned(c: Config, s: System, run: seq<Label>, owner: JobId -> (nat, Channel))
    requires AllOwned(s, owner) && Agree(run, owner) && Exec(c, s, run).Some?
    ensures AllOwned(Exec(c, s, run).value, owner)
    decreases |run|
  {
    hide SystemStep, AllOwned, Owned;
    if run != [] {
      assert run[0] in run && forall l | l in run[1..] :: l in run;
      StepOwned(c, s, run[0], owner);
      RunOwned(c, SystemStep(c, s, run[0]).value, run[1..], owner);
    }
  }

  /** If the received jobs of one id agree on user and channel, every stored row carries those of its job. */
  lemma RowsCarryTheirJob(c: Config, n: nat, run: seq<Label>, owner: JobId -> (nat, Channel))
    requires Agree(run, owner) && Exec(c, Init(n), run).Some?
    ensures var t := Exec(c, Init(n), run).value.store.table;
            forall j | j in t :: owner(j) == (t[j].user, t[j].channel)
  {
    RunOwned(c, Init(n), run, owner);
    var t := Exec(c, Init(n), run).value.store.table;
    assert forall j | j in t :: RowOwned(t, j, owner);
  }

  // ---------------------------------------------------------------------------------------
  // Leaving the loop

  ghost predicate FinalSaved(trace: seq<Event>, w: nat, pc: Pc) {
    pc.PublishingFinal? ==> LastSave(trace, w) == Some((pc.job.id, Failed))
  }

  ghost predicate FinalsSaved(s: System) {
    forall w | 0 <= w < |s.workers| :: FinalSaved(s.store.trace, w, s.workers[w])
  }

  lemma LastSaveAfter(s: Store, e: Effect, w: nat)
    requires e.Effect?
    ensures LastSave(s.After(e).trace, w)
         == if e.event.JobEvent? && e.event.worker == w && e.event.kind.Saved?
            then Some((e.event.job, e.event.kind.status))
            else LastSave(s.trace, w)
  {
    if !e.event.Silent? {
      assert (s.trace + [e.event])[..|s.trace|] == s.trace;
    }
  }

  lemma FinalsSavedStep(c: Config, s: System, l: Label)
    requires FinalsSaved(s) && SystemStep(c, s, l).Some?
    ensures FinalsSaved(SystemStep(c, s, l).value)
  {
    var e := Act(c, l.worker, s.store.table, s.workers[l.worker], l.action);
    var s' := SystemStep(c, s, l).value;
    forall v | 0 <= v < |s'.workers|
      ensures FinalSaved(s'.store.trace, v, s'.workers[v])
    {
      LastSaveAfter(s.store, e, v);
      assert FinalSaved(s.store.trace, v, s.workers[v]);
    }
  }

  lemma {:induction false} RunKeepsFinals(c: Config, s: System, run: seq<Label>)
    requires FinalsSaved(s) && Exec(c, s, run).Some?
    ensures FinalsSaved(Exec(c, s, run).value)
    decreases |run|
  {
    hide SystemStep;
    if run != [] {
      FinalsSavedStep(c, s, run[0]);
      RunKeepsFinals(c, SystemStep(c, s, run[0]).value, run[1..]);
    }
  }

  /** In every reachable state a held claim has an attempt left, so a claim enters the loop; and a
      loop that returns normally has just stored SENT, or FAILED as its worker's last save. */
  lemma LoopReturnsAfterTerminalSave(c: Config, n: nat, run: seq<Label>, l: Label)
    requires c.maxAttempts >= 1
    requires Exec(c, Init(n), run).Some?
    requires SystemStep(c, Exec(c, Init(n), run).value, l).Some?
    ensures var s := Exec(c, Init(n), run).value;
            var s' := SystemStep(c, s, l).value;
            var pc, pc' := s.workers[l.worker], s'.workers[l.worker];
            && (pc.Looping? && l.action.Attempt? ==> pc'.Sending?)
            && (InLoop(pc) && pc'.Done? ==>
                  LastSave(s'.store.trace, l.worker) in {Some((pc.job.id, Sent)), Some((pc.job.id, Failed))})
  {
    RunKeepsRows(c, Init(n), run);
    RunKeepsFinals(c, Init(n), run);
    var s := Exec(c, Init(n), run).value;
    var s' := SystemStep(c, s, l).value;
    assert PcOk(c, s.store.table, s.workers[l.worker]);
    assert FinalSaved(s.store.trace, l.worker, s.workers[l.worker]);
    LastSaveAfter(s.store, Act(c, l.worker, s.store.table, s.workers[l.worker], l.action), l.worker);
  }

  // ---------------------------------------------------------------------------------------
  // Attempt budget

  /** Attempts that claims already won still allow, over all workers. */
  function Outstanding(c: Config, workers: seq<Pc>, j: JobId): nat {
    if workers == [] then 0
    else Remaining(c, workers[0], j) + Outstanding(c, workers[1..], j)
  }

  lemma {:induction false} OutstandingUpdate(c: Config, workers: seq<Pc>, w: nat, pc: Pc, j: JobId)
    requires w < |workers|
    ensures Outstanding(c, workers[w := pc], j)
         == Outstanding(c, workers, j) - Remaining(c, workers[w], j) + Remaining(c, pc, j)
  {
    if w == 0 {
      assert workers[0 := pc][1..] == workers[1..];
    } else {
      assert workers[w := pc][1..] == workers[1..][w - 1 := pc];
      OutstandingUpdate(c, workers[1..], w - 1, pc, j);
    }
  }

  lemma {:induction false} OutstandingInit(c: Config, workers: seq<Pc>, j: JobId)
    requires forall w | 0 <= w < |workers| :: workers[w] == Idle
    ensures Outstanding(c, workers, j) == 0
  {
    if workers != [] {
      OutstandingInit(c, workers[1..], j);
    }
  }

  ghost predicate WithinBudget(c: Config, s: System, j: JobId) {
    && Count(s.store.trace, j, Calls) + Outstanding(c, s.workers, j) <= Granted(c.maxAttempts, s.store.trace, j)
    && Count(s.store.trace, j, Inserts) <= (if j in s.store.table then 1 else 0)
  }

  lemma ActInserts(c: Config, w: nat, t: Table, pc: Pc, a: Action, j: JobId, e: Effect)
    requires e == Act(c, w, t, pc, a) && e.Effect?
    ensures Delta(e.event, j, Inserts) == 0 || (Delta(e.event, j, Inserts) == 1 && j !in t && j in e.table)
  {
  }

  /** One action uses no more of the budget than it is granted. */
  lemma ActWithinBudget(c: Config, w: nat, t: Table, pc: Pc, a: Action, j: JobId, e: Effect)
    requires PcOk(c, t, pc)
    requires e == Act(c, w, t, pc, a) && e.Effect?
    ensures Delta(e.event, j, Calls) + Remaining(c, e.pc, j) <= Grant(c.maxAttempts, e.event, j) + Remaining(c, pc, j)
  {
  }

  lemma BudgetStep(c: Config, s: System, l: Label, j: JobId)
    requires c.maxAttempts >= 1 && SystemOk(c, s) && WithinBudget(c, s, j)
    requires SystemStep(c, s, l).Some?
    ensures WithinBudget(c, SystemStep(c, s, l).value, j)
  {
    hide Act;
    var pc := s.workers[l.worker];
    var e := Act(c, l.worker, s.store.table, pc, l.action);
    OutstandingUpdate(c, s.workers, l.worker, e.pc, j);
    CountAfter(s.store, e, j, Calls);
    CountAfter(s.store, e, j, Inserts);
    GrantedAfter(c.maxAttempts, s.store, e, j);
    ActWithinBudget(c, l.worker, s.store.table, pc, l.action, j, e);
    ActInserts(c, l.worker, s.store.table, pc, l.action, j, e);
    ActOk(c, l.worker, s.store.table, pc, l.action, e);
  }

  lemma {:induction false} RunKeepsBudget(c: Config, s: System, run: seq<Label>, j: JobId)
    requires c.maxAttempts >= 1 && SystemOk(c, s) && WithinBudget(c, s, j)
    requires Exec(c, s, run).Some?
    ensures WithinBudget(c, Exec(c, s, run).value, j)
    decreases |run|
  {
    hide SystemStep;
    if run != [] {
      SystemStepOk(c, s, run[0]);
      BudgetStep(c, s, run[0], j);
      RunKeepsBudget(c, SystemStep(c, s, run[0]).value, run[1..], j);
    }
  }

  /** Over any number of workers and any interleaving, calls for a job stay within the sum over its
      won claims of the attempts each claim was granted, and the INSERT wins at most once, ever. */
  lemma AttemptBudget(c: Config, n: nat, run: seq<Label>, j: JobId)
    requires c.maxAttempts >= 1
    requires Exec(c, Init(n), run).Some?
    ensures var trace := Exec(c, Init(n), run).value.store.trace;
            && Count(trace, j, Calls) <= Granted(c.maxAttempts, trace, j) <= c.maxAttempts * Count(trace, j, Claims)
            && Count(trace, j, Inserts) <= 1
  {
    OutstandingInit(c, Init(n).workers, j);
    RunKeepsBudget(c, Init(n), run, j);
    GrantedWithinClaims(c.maxAttempts, Exec(c, Init(n), run).value.store.trace, j);
  }

  // ---------------------------------------------------------------------------------------
  // Claim spacing

  /** An open claim is visible in the row as its lease. */
  predicate LeaseVisible(t: Table, j: JobId, open: Option<int>) {
    open.Some? ==> j in t && t[j].status == Processing && t[j].startedAt == open
  }

  ghost predicate LeasesVisible(s: Store) {
    forall j :: LeaseVisible(s.table, j, OpenClaim(s.trace, j))
  }

  predicate IsClaim(e: Event, j: JobId) { e.JobEvent? && e.job == j && e.kind.Claimed? }

  predicate IsSave(e: Event, j: JobId) { e.JobEvent? && e.job == j && e.kind.Saved? }

  /** A history in which a claim on top of an open one always comes after the lease has run out. */
  ghost predicate Spaced(stale: int, trace: seq<Event>) {
    trace == [] ||
    var prev, e := trace[..|trace| - 1], trace[|trace| - 1];
    && Spaced(stale, prev)
    && (forall j | IsClaim(e, j) && OpenClaim(prev, j).Some? :: e.kind.now - OpenClaim(prev, j).value > stale)
  }

  function OpenClaimThen(open: Option<int>, event: Event, j: JobId): Option<int> {
    if IsClaim(event, j) then Some(event.kind.now)
    else if IsSave(event, j) then None
    else open
  }

  lemma OpenClaimAfter(s: Store, e: Effect, j: JobId)
    requires e.Effect?
    ensures OpenClaim(s.After(e).trace, j) == OpenClaimThen(OpenClaim(s.trace, j), e.event, j)
  {
    if !e.event.Silent? {
      assert (s.trace + [e.event])[..|s.trace|] == s.trace;
    }
  }

  /** One action keeps the lease visible, and wins over an open claim only when its lease has run out. */
  lemma ActSpaced(c: Config, w: nat, t: Table, pc: Pc, a: Action, j: JobId, open: Option<int>)
    requires LeaseVisible(t, j, open)
    requires Act(c, w, t, pc, a).Effect?
    ensures var e := Act(c, w, t, pc, a);
            && LeaseVisible(e.table, j, OpenClaimThen(open, e.event, j))
            && (IsClaim(e.event, j) && open.Some? ==>
                  e.event.kind.now - open.value > c.staleAfter)
  {
  }

  lemma SpacingStep(c: Config, s: System, l: Label)
    requires Spaced(c.staleAfter, s.store.trace) && LeasesVisible(s.store)
    requires SystemStep(c, s, l).Some?
    ensures var s' := SystemStep(c, s, l).value;
            Spaced(c.staleAfter, s'.store.trace) && LeasesVisible(s'.store)
  {
    hide Act;
    var e := Act(c, l.worker, s.store.table, s.workers[l.worker], l.action);
    forall j
      ensures LeaseVisible(e.table, j, OpenClaim(s.store.After(e).trace, j))
      ensures IsClaim(e.event, j) && OpenClaim(s.store.trace, j).Some? ==>
                e.event.kind.now - OpenClaim(s.store.trace, j).value > c.staleAfter
    {
      OpenClaimAfter(s.store, e, j);
      ActSpaced(c, l.worker, s.store.table, s.workers[l.worker], l.action, j, OpenClaim(s.store.trace, j));
    }
    if !e.event.Silent? {
      assert (s.store.trace + [e.event])[..|s.store.trace|] == s.store.trace;
    }
  }

  lemma {:induction false} RunKeepsSpacing(c: Config, s: System, run: seq<Label>)
    requires Spaced(c.staleAfter, s.store.trace) && LeasesVisible(s.store)
    requires Exec(c, s, run).Some?
    ensures Spaced(c.staleAfter, Exec(c, s, run).value.store.trace)
    decreases |run|
  {
    hide SystemStep;
    if run != [] {
      SpacingStep(c, s, run[0]);
      RunKeepsSpacing(c, SystemStep(c, s, run[0]).value, run[1..]);
    }
  }

  /** The number of claims of a job at positions after i, up to k. */
  function ClaimsBetween(trace: seq<Event>, i: nat, k: nat, j: JobId): nat
    requires k < |trace|
    decreases k
  {
    if k <= i then 0
    else ClaimsBetween(trace, i, k - 1, j) + if IsClaim(trace[k], j) then 1 else 0
  }

  lemma {:induction false} SpacedPrefix(stale: int, trace: seq<Event>, k: nat)
    requires k <= |trace| && Spaced(stale, trace)
    ensures Spaced(stale, trace[..k])
  {
    if k < |trace| {
      SpacedPrefix(stale, trace[..|trace| - 1], k);
      assert trace[..|trace| - 1][..k] == trace[..k];
    } else {
      assert trace[..k] == trace;
    }
  }

  lemma {:induction false} OpenClaimGap(stale: int, trace: seq<Event>, i: nat, k: nat, j: JobId)
    requires Spaced(stale, trace)
    requires i <= k < |trace| && IsClaim(trace[i], j)
    requires forall m | i < m <= k :: !IsSave(trace[m], j)
    ensures var n := ClaimsBetween(trace, i, k, j);
            && OpenClaim(trace[..k + 1], j).Some?
            && (n == 0 ==> OpenClaim(trace[..k + 1], j).value == trace[i].kind.now)
            && (n >= 1 ==> OpenClaim(trace[..k + 1], j).value - trace[i].kind.now > n * stale)
    decreases k
  {
    assert trace[..k + 1][..k] == trace[..k];
    if i < k {
      OpenClaimGap(stale, trace, i, k - 1, j);
      if IsClaim(trace[k], j) {
        SpacedPrefix(stale, trace, k + 1);
        var n := ClaimsBetween(trace, i, k - 1, j);
        assert (n + 1) * stale == n * stale + stale;
      }
    }
  }

  /** In any multi-worker run, k successive claims of a job with no save between them span more than
      (k-1) leases; for k = 2, the two instants are more than one lease apart. */
  lemma ClaimSpacing(c: Config, n: nat, run: seq<Label>, j: JobId, i: nat, k: nat)
    requires Exec(c, Init(n), run).Some?
    requires var trace := Exec(c, Init(n), run).value.store.trace;
             && i < k < |trace| && IsClaim(trace[i], j) && IsClaim(trace[k], j)
             && forall m | i < m < k :: !IsSave(trace[m], j)
    ensures var trace := Exec(c, Init(n), run).value.store.trace;
            trace[k].kind.now - trace[i].kind.now > ClaimsBetween(trace, i, k, j) * c.staleAfter
  {
    RunKeepsSpacing(c, Init(n), run);
    OpenClaimGap(c.staleAfter, Exec(c, Init(n), run).value.store.trace, i, k, j);
  }
}
