/** The campaign scheduler: when a campaign is due, what a tick does to the table, and what several
    schedulers, or one with a lagging clock, can do to one campaign. */
module CampaignScheduler {
  import opened Delivery

  datatype CampaignStatus = Active | Inactive | Paused

  datatype Campaign = Campaign(id: nat, cron: string, status: CampaignStatus, lastTriggeredAt: Option<int>,
                               runsCount: int, maxRuns: Option<int>)

  /** croniter: the next fire of a schedule after a base instant; None when it raises. */
  type Croniter = (string, int) -> Option<int>

  /** The croniter computes the least fire after its base, and fails only when there is none. */
  ghost predicate Describes(next: Croniter, cron: string, fires: int -> bool) {
    forall base: int ::
      match next(cron, base)
      case None => forall f | fires(f) :: f <= base
      case Some(n) => fires(n) && n > base && forall f | fires(f) && f > base :: n <= f
  }

  predicate UnderCap(campaign: Campaign) {
    campaign.maxRuns.None? || campaign.runsCount < campaign.maxRuns.value
  }

  function IsCampaignDue(next: Croniter, campaign: Campaign, now: int): bool {
    if campaign.maxRuns.Some? && campaign.runsCount >= campaign.maxRuns.value then false
    else if campaign.lastTriggeredAt.None? then true
    else
      match next(campaign.cron, campaign.lastTriggeredAt.value)
      case None => false
      case Some(nextRun) => nextRun <= now
  }

  ghost predicate FireIn(fires: int -> bool, after: int, upTo: int) {
    exists f :: fires(f) && after < f <= upTo
  }

  /** A fire has come since the last trigger, or there was none yet. */
  ghost predicate FiredSince(last: Option<int>, fires: int -> bool, now: int) {
    last.Some? ==> FireIn(fires, last.value, now)
  }

  /** A campaign is due exactly when its cap leaves a run and some fire lies between its last trigger
      and now; how many fires were missed makes no difference. */
  lemma DueIff(next: Croniter, campaign: Campaign, now: int, fires: int -> bool)
    requires Describes(next, campaign.cron, fires)
    ensures IsCampaignDue(next, campaign, now) <==> UnderCap(campaign) && FiredSince(campaign.lastTriggeredAt, fires, now)
  {
  }

  /** The row the UPDATE of mark_campaign_triggered leaves at database time dbNow. */
  function Triggered(row: Campaign, dbNow: int): Campaign {
    row.(lastTriggeredAt := Some(dbNow), runsCount := row.runsCount + 1,
         status := if row.maxRuns.Some? && row.runsCount + 1 >= row.maxRuns.value then Inactive else Active)
  }

  /** After a catch-up run the campaign rests until the next fire, however many it had missed. */
  lemma CatchUpOnce(next: Croniter, row: Campaign, dbNow: int, later: int, fires: int -> bool)
    requires Describes(next, row.cron, fires)
    requires forall f | fires(f) && dbNow < f :: later < f
    ensures !IsCampaignDue(next, Triggered(row, dbNow), later)
  {
    DueIff(next, Triggered(row, dbNow), later, fires);
  }

  // ---------------------------------------------------------------------------------------
  // Any number of schedulers on one campaign

  datatype Scheduler = Idle | Holding(seen: Campaign, now: int) | Posted(now: int)

  datatype Action =
    | Fetch(now: int)                     // the tick's clock reading, then the SELECT
    | Decide(posted: bool)                // is it due, and did the POST succeed
    | Mark(dbNow: int, ok: bool)
    | Crash

  datatype Label = Label(scheduler: nat, action: Action)

  datatype State = State(row: Campaign, schedulers: seq<Scheduler>, marks: seq<int>)

  function Start(row: Campaign, k: nat): State {
    State(row, seq(k, _ => Idle), [])
  }

  function Goto(s: State, i: nat, next: Scheduler): Option<State>
    requires i < |s.schedulers|
  {
    Some(s.(schedulers := s.schedulers[i := next]))
  }

  function Step(next: Croniter, s: State, l: Label): Option<State> {
    var i := l.scheduler;
    if i >= |s.schedulers| then None
    else if l.action.Crash? then Goto(s, i, Idle)
    else
      match s.schedulers[i]
      case Idle =>
        if l.action.Fetch? && s.row.status == Active then Goto(s, i, Holding(s.row, l.action.now)) else None
      case Holding(seen, now) =>
        if !l.action.Decide? then None
        else if IsCampaignDue(next, seen, now) && l.action.posted then Goto(s, i, Posted(now))
        else Goto(s, i, Idle)
      case Posted(_) =>
        if !l.action.Mark? then None
        else if !l.action.ok then Goto(s, i, Idle)
        else
          Some(State(Triggered(s.row, l.action.dbNow), s.schedulers[i := Idle], s.marks + [l.action.dbNow]))
  }

  function Exec(next: Croniter, s: State, run: seq<Label>): Option<State>
    decreases |run|
  {
    if run == [] then Some(s)
    else
      match Step(next, s, run[0])
      case None => None
      case Some(s') => Exec(next, s', run[1..])
  }

  // ---------------------------------------------------------------------------------------
  // The cap on runs

  /** May this scheduler still mark a campaign capped at max? */
  function Pending(sc: Scheduler, max: int): nat {
    match sc
    case Idle => 0
    case Holding(seen, _) => if seen.runsCount < max then 1 else 0
    case Posted(_) => 1
  }

  function PendingAll(scs: seq<Scheduler>, max: int): (n: nat)
    ensures n <= |scs|
  {
    if scs == [] then 0 else Pending(scs[0], max) + PendingAll(scs[1..], max)
  }

  lemma {:induction false} PendingUpdate(scs: seq<Scheduler>, i: nat, sc: Scheduler, max: int)
    requires i < |scs|
    ensures PendingAll(scs[i := sc], max) == PendingAll(scs, max) - Pending(scs[i], max) + Pending(sc, max)
  {
    if i == 0 {
      assert scs[0 := sc][1..] == scs[1..];
    } else {
      assert scs[i := sc][1..] == scs[1..][i - 1 := sc];
      PendingUpdate(scs[1..], i - 1, sc, max);
    }
  }

  function RunLimit(runs0: int, max: int, k: nat): int {
    if runs0 > max then runs0 else max + k - 1
  }

  ghost predicate Capped(s: State, runs0: int, max: int, k: nat) {
    && |s.schedulers| == k >= 1 && s.row.maxRuns == Some(max)
    && (forall i | 0 <= i < k && s.schedulers[i].Holding? :: s.schedulers[i].seen.maxRuns == Some(max))
    && s.row.runsCount >= runs0
    && (s.row.runsCount >= max ==> s.row.runsCount + PendingAll(s.schedulers, max) <= RunLimit(runs0, max, k))
  }

  lemma CappedStep(next: Croniter, s: State, l: Label, runs0: int, max: int, k: nat)
    requires Capped(s, runs0, max, k) && Step(next, s, l).Some?
    ensures Capped(Step(next, s, l).value, runs0, max, k)
  {
    var s' := Step(next, s, l).value;
    PendingUpdate(s.schedulers, l.scheduler, s'.schedulers[l.scheduler], max);
    assert s'.schedulers == s.schedulers[l.scheduler := s'.schedulers[l.scheduler]];
  }

  lemma {:induction false} RunKeepsCap(next: Croniter, s: State, run: seq<Label>, runs0: int, max: int, k: nat)
    requires Capped(s, runs0, max, k) && Exec(next, s, run).Some?
    ensures Capped(Exec(next, s, run).value, runs0, max, k)
    decreases |run|
  {
    if run != [] {
      CappedStep(next, s, run[0], runs0, max, k);
      RunKeepsCap(next, Step(next, s, run[0]).value, run[1..], runs0, max, k);
    }
  }

  lemma {:induction false} PendingNone(scs: seq<Scheduler>, max: int)
    requires forall i | 0 <= i < |scs| :: scs[i] == Idle
    ensures PendingAll(scs, max) == 0
  {
    if scs != [] {
      PendingNone(scs[1..], max);
    }
  }

  /** k schedulers over stale snapshots overrun the cap by at most k - 1, and one scheduler never. A
      campaign already past its cap gets no further run. */
  lemma RunCap(next: Croniter, row: Campaign, k: nat, run: seq<Label>)
    requires k >= 1 && row.maxRuns.Some?
    requires Exec(next, Start(row, k), run).Some?
    ensures Exec(next, Start(row, k), run).value.row.runsCount <= RunLimit(row.runsCount, row.maxRuns.value, k)
  {
    PendingNone(Start(row, k).schedulers, row.maxRuns.value);
    RunKeepsCap(next, Start(row, k), run, row.runsCount, row.maxRuns.value, k);
  }

  /** A campaign deactivated by its cap never becomes active again, whatever marks are still on the way. */
  lemma {:induction false} StaysInactive(next: Croniter, s: State, run: seq<Label>)
    requires s.row.status == Inactive && s.row.maxRuns.Some? && s.row.runsCount >= s.row.maxRuns.value
    requires Exec(next, s, run).Some?
    ensures var row := Exec(next, s, run).value.row;
            row.status == Inactive && row.maxRuns == s.row.maxRuns && row.runsCount >= s.row.runsCount
    decreases |run|
  {
    if run != [] {
      StaysInactive(next, Step(next, s, run[0]).value, run[1..]);
    }
  }

  predicate CapReached(row: Campaign) {
    row.maxRuns.Some? && row.runsCount >= row.maxRuns.value
  }

  /** runs_count counts the recorded triggers, and from the first one on the campaign is inactive
      exactly when its cap is reached. Without a trigger the row does not change. */
  lemma {:induction false} TriggersCounted(next: Croniter, s: State, run: seq<Label>)
    requires Exec(next, s, run).Some?
    ensures var s' := Exec(next, s, run).value;
            && s.marks <= s'.marks
            && s'.row.runsCount - s.row.runsCount == |s'.marks| - |s.marks|
            && (s'.marks == s.marks ==> s'.row == s.row)
            && (s'.marks != s.marks ==> s'.row.status == if CapReached(s'.row) then Inactive else Active)
    decreases |run|
  {
    if run != [] {
      TriggersCounted(next, Step(next, s, run[0]).value, run[1..]);
    }
  }

  // ---------------------------------------------------------------------------------------
  // The bound is reached

  lemma {:induction false} ExecSnoc(next: Croniter, s: State, run: seq<Label>, l: Label)
    requires Exec(next, s, run).Some?
    ensures Exec(next, s, run + [l]) == Step(next, Exec(next, s, run).value, l)
    decreases |run|
  {
    hide Step;
    if run == [] {
      assert run + [l] == [l] && [l][1..] == [];
    } else {
      ExecSnoc(next, Step(next, s, run[0]).value, run[1..], l);
      assert (run + [l])[1..] == run[1..] + [l];
    }
  }

  /** The first i schedulers have posted on the same snapshot. */
  function PostedBy(row: Campaign, k: nat, i: nat): State
    requires i <= k
  {
    State(row, seq(k, n => if n < i then Posted(0) else Idle), [])
  }

  lemma {:induction false} AllPost(next: Croniter, row: Campaign, k: nat, i: nat) returns (run: seq<Label>)
    requires i <= k && row.status == Active && row.lastTriggeredAt.None? && UnderCap(row)
    ensures Exec(next, Start(row, k), run) == Some(PostedBy(row, k, i))
  {
    if i == 0 {
      run := [];
      assert PostedBy(row, k, 0).schedulers == Start(row, k).schedulers;
    } else {
      run := AllPost(next, row, k, i - 1);
      var s := PostedBy(row, k, i - 1);
      var held := State(row, s.schedulers[i - 1 := Holding(row, 0)], []);
      assert Step(next, s, Label(i - 1, Fetch(0))) == Some(held);
      ExecSnoc(next, Start(row, k), run, Label(i - 1, Fetch(0)));
      assert held.schedulers[i - 1 := Posted(0)] == PostedBy(row, k, i).schedulers;
      assert Step(next, held, Label(i - 1, Decide(true))) == Some(PostedBy(row, k, i));
      ExecSnoc(next, Start(row, k), run + [Label(i - 1, Fetch(0))], Label(i - 1, Decide(true)));
      run := run + [Label(i - 1, Fetch(0))] + [Label(i - 1, Decide(true))];
    }
  }

  lemma {:induction false} AllMark(next: Croniter, row: Campaign, k: nat, i: nat) returns (run: seq<Label>)
    requires i <= k && row.status == Active && row.lastTriggeredAt.None? && UnderCap(row)
    ensures Exec(next, Start(row, k), run).Some?
    ensures var s := Exec(next, Start(row, k), run).value;
            s.row.runsCount == row.runsCount + i && s.schedulers == seq(k, n => if i <= n then Posted(0) else Idle)
  {
    if i == 0 {
      run := AllPost(next, row, k, k);
      assert PostedBy(row, k, k).schedulers == seq(k, n => if 0 <= n then Posted(0) else Idle);
    } else {
      run := AllMark(next, row, k, i - 1);
      var s := Exec(next, Start(row, k), run).value;
      ExecSnoc(next, Start(row, k), run, Label(i - 1, Mark(0, true)));
      assert s.schedulers[i - 1 := Idle] == seq(k, n => if i <= n then Posted(0) else Idle);
      run := run + [Label(i - 1, Mark(0, true))];
    }
  }

  /** For every number of schedulers and every cap some run overruns the cap by exactly k - 1. */
  lemma RunCapReached(next: Croniter, k: nat, max: int) returns (row: Campaign, run: seq<Label>)
    requires k >= 1
    ensures row.maxRuns == Some(max) && row.runsCount <= max
    ensures Exec(next, Start(row, k), run).Some?
    ensures Exec(next, Start(row, k), run).value.row.runsCount == max + k - 1
  {
    row := Campaign(0, "", Active, None, max - 1, Some(max));
    run := AllMark(next, row, k, k);
  }

  // ---------------------------------------------------------------------------------------
  // Triggers against cron fires, one scheduler

  /** Every mark of the run is made at a database time not before its tick's clock reading. */
  ghost predicate Timely(next: Croniter, s: State, run: seq<Label>)
    requires Exec(next, s, run).Some?
    decreases |run|
  {
    run != [] ==>
      && (run[0].action.Mark? && s.schedulers[run[0].scheduler].Posted? ==>
            run[0].action.dbNow >= s.schedulers[run[0].scheduler].now)
      && Timely(next, Step(next, s, run[0]).value, run[1..])
  }

  /** Between two marks there is a fire. */
  ghost predicate FireBetween(marks: seq<int>, fires: int -> bool) {
    forall i | 0 <= i < |marks| - 1 :: FireIn(fires, marks[i], marks[i + 1])
  }

  ghost predicate OneScheduler(s: State, fires: int -> bool) {
    && |s.schedulers| == 1
    && (s.schedulers[0].Holding? ==> s.schedulers[0].seen == s.row)
    && (s.schedulers[0].Posted? ==> FiredSince(s.row.lastTriggeredAt, fires, s.schedulers[0].now))
    && (s.marks != [] ==> s.row.lastTriggeredAt == Some(s.marks[|s.marks| - 1]))
    && FireBetween(s.marks, fires)
  }

  lemma OneSchedulerStep(next: Croniter, s: State, l: Label, fires: int -> bool)
    requires OneScheduler(s, fires) && Describes(next, s.row.cron, fires) && Step(next, s, l).Some?
    requires l.action.Mark? && s.schedulers[0].Posted? ==> l.action.dbNow >= s.schedulers[0].now
    ensures var s' := Step(next, s, l).value;
            OneScheduler(s', fires) && s'.row.cron == s.row.cron
  {
    hide IsCampaignDue, Describes;
    if s.schedulers[0].Holding? {
      DueIff(next, s.row, s.schedulers[0].now, fires);
    }
  }

  lemma {:induction false} RunKeepsFires(next: Croniter, s: State, run: seq<Label>, fires: int -> bool)
    requires OneScheduler(s, fires) && Describes(next, s.row.cron, fires)
    requires Exec(next, s, run).Some? && Timely(next, s, run)
    ensures FireBetween(Exec(next, s, run).value.marks, fires)
    decreases |run|
  {
    if run != [] {
      OneSchedulerStep(next, s, run[0], fires);
      RunKeepsFires(next, Step(next, s, run[0]).value, run[1..], fires);
    }
  }

  /** Recorded triggers in a window. */
  function CountIn(marks: seq<int>, lo: int, hi: int): nat {
    if marks == [] then 0
    else
      var last := marks[|marks| - 1];
      CountIn(marks[..|marks| - 1], lo, hi) + if lo <= last <= hi then 1 else 0
  }

  ghost function FiresIn(fires: int -> bool, lo: int, hi: int): set<int> {
    set f: int | lo < f <= hi && fires(f)
  }

  lemma {:induction false} Ascending(marks: seq<int>, fires: int -> bool, i: nat, k: nat)
    requires FireBetween(marks, fires) && i <= k < |marks|
    ensures marks[i] <= marks[k]
    decreases k
  {
    if i < k {
      Ascending(marks, fires, i, k - 1);
      assert FireIn(fires, marks[k - 1], marks[k]);
    }
  }

  lemma {:induction false} NoneIn(marks: seq<int>, lo: int, hi: int)
    requires forall i | 0 <= i < |marks| :: marks[i] < lo
    ensures CountIn(marks, lo, hi) == 0
  {
    if marks != [] {
      NoneIn(marks[..|marks| - 1], lo, hi);
    }
  }

  lemma {:induction false} WindowShrinks(marks: seq<int>, lo: int, hi: int, top: int)
    requires top <= hi && forall i | 0 <= i < |marks| :: marks[i] <= top
    ensures CountIn(marks, lo, hi) == CountIn(marks, lo, top)
  {
    if marks != [] {
      WindowShrinks(marks[..|marks| - 1], lo, hi, top);
    }
  }

  lemma FiresGrow(fires: int -> bool, lo: int, mid: int, hi: int, last: int)
    requires FireIn(fires, mid, last) && lo <= mid && last <= hi
    ensures |FiresIn(fires, lo, mid)| + 1 <= |FiresIn(fires, lo, hi)|
  {
    var f :| fires(f) && mid < f <= last;
    var less, more := FiresIn(fires, lo, mid), FiresIn(fires, lo, hi);
    assert f in more && f !in less;
    assert more == (less + {f}) + (more - (less + {f}));
  }

  lemma {:induction false} WindowBound(marks: seq<int>, fires: int -> bool, lo: int, hi: int)
    requires FireBetween(marks, fires)
    ensures CountIn(marks, lo, hi) <= 1 + |FiresIn(fires, lo, hi)|
    decreases |marks|
  {
    hide FireIn, FiresIn;
    if |marks| >= 2 {
      var n := |marks| - 1;
      var prev, last, before := marks[..n], marks[n], marks[n - 1];
      assert FireBetween(prev, fires);
      forall i | 0 <= i < n ensures prev[i] <= before {
        Ascending(marks, fires, i, n - 1);
      }
      if !(lo <= last <= hi) {
        WindowBound(prev, fires, lo, hi);
      } else if before < lo {
        NoneIn(prev, lo, hi);
      } else {
        WindowBound(prev, fires, lo, before);
        Ascending(marks, fires, n - 1, n);
        WindowShrinks(prev, lo, hi, before);
        assert FireIn(fires, marks[n - 1], marks[n - 1 + 1]);
        FiresGrow(fires, lo, before, hi, last);
      }
    }
  }

  /** With one scheduler whose tick clock is not ahead of the database, the triggers recorded in any
      window are at most one more than the cron fires in it. */
  lemma CronBound(next: Croniter, row: Campaign, fires: int -> bool, run: seq<Label>, lo: int, hi: int)
    requires Describes(next, row.cron, fires)
    requires Exec(next, Start(row, 1), run).Some? && Timely(next, Start(row, 1), run)
    ensures CountIn(Exec(next, Start(row, 1), run).value.marks, lo, hi) <= 1 + |FiresIn(fires, lo, hi)|
  {
    RunKeepsFires(next, Start(row, 1), run, fires);
    WindowBound(Exec(next, Start(row, 1), run).value.marks, fires, lo, hi);
  }

  // ---------------------------------------------------------------------------------------
  // A tick clock ahead of the database

  /** Every mark is made exactly `ahead` before its tick's clock reading. */
  ghost predicate ClockAhead(next: Croniter, s: State, run: seq<Label>, ahead: nat)
    requires Exec(next, s, run).Some?
    decreases |run|
  {
    run != [] ==>
      && (run[0].action.Mark? && s.schedulers[run[0].scheduler].Posted? ==>
            run[0].action.dbNow == s.schedulers[run[0].scheduler].now - ahead)
      && ClockAhead(next, Step(next, s, run[0]).value, run[1..], ahead)
  }

  /** A schedule with one fire, at instant 0. */
  function OnlyAtZero(): int -> bool {
    f => f == 0
  }

  function NextIsZero(): Croniter {
    (_, base) => if base < 0 then Some(0) else None
  }

  lemma ZeroDescribes(cron: string)
    ensures Describes(NextIsZero(), cron, OnlyAtZero())
  {
  }

  /** The campaign after i ticks at instants 0, 1, 2, ... of a clock that is ahead. */
  function TriggeredTimes(ahead: nat, i: nat): State {
    State(Campaign(0, "", Active, Some(i - 1 - ahead), i, None), [Idle], seq(i, k => k - ahead))
  }

  lemma AheadThen(next: Croniter, s: State, l: Label, s': State, rest: seq<Label>, ahead: nat) returns (run: seq<Label>)
    requires Step(next, s, l) == Some(s') && Exec(next, s', rest).Some? && ClockAhead(next, s', rest, ahead)
    requires l.action.Mark? && s.schedulers[l.scheduler].Posted? ==> l.action.dbNow == s.schedulers[l.scheduler].now - ahead
    ensures Exec(next, s, run) == Exec(next, s', rest) && ClockAhead(next, s, run, ahead)
  {
    hide Step;
    run := [l] + rest;
    assert run[0] == l && run[1..] == rest;
  }

  /** From the i-th tick on, every tick finds the campaign due until the marks reach the fire. */
  lemma {:induction false} AheadTriggers(ahead: nat, i: nat) returns (run: seq<Label>)
    requires i <= ahead + 1
    ensures Exec(NextIsZero(), TriggeredTimes(ahead, i), run) == Some(TriggeredTimes(ahead, ahead + 1))
    ensures ClockAhead(NextIsZero(), TriggeredTimes(ahead, i), run, ahead)
    decreases ahead + 1 - i
  {
    run := [];
    if i <= ahead {
      var next, s, s' := NextIsZero(), TriggeredTimes(ahead, i), TriggeredTimes(ahead, i + 1);
      var held, posted := State(s.row, [Holding(s.row, i)], s.marks), State(s.row, [Posted(i)], s.marks);
      assert s.schedulers[0 := Holding(s.row, i)] == held.schedulers;
      assert held.schedulers[0 := Posted(i)] == posted.schedulers && posted.schedulers[0 := Idle] == s'.schedulers;
      assert s.marks + [i - ahead] == s'.marks;
      run := AheadTriggers(ahead, i + 1);
      run := AheadThen(next, posted, Label(0, Mark(i - ahead, true)), s', run, ahead);
      run := AheadThen(next, held, Label(0, Decide(true)), posted, run, ahead);
      run := AheadThen(next, s, Label(0, Fetch(i)), held, run, ahead);
    }
  }

  /** All the marks lie in the window. */
  lemma {:induction false} CountAll(marks: seq<int>, lo: int, hi: int)
    requires forall i | 0 <= i < |marks| :: lo <= marks[i] <= hi
    ensures CountIn(marks, lo, hi) == |marks|
  {
    if marks != [] {
      CountAll(marks[..|marks| - 1], lo, hi);
    }
  }

  /** The bound needs the timely clock: one scheduler whose tick clock is ahead of the database records
      ahead + 1 triggers, at different instants, in a window that holds a single fire. */
  lemma AheadClockRepeats(ahead: nat) returns (row: Campaign, run: seq<Label>)
    ensures Describes(NextIsZero(), row.cron, OnlyAtZero())
    ensures Exec(NextIsZero(), Start(row, 1), run).Some? && ClockAhead(NextIsZero(), Start(row, 1), run, ahead)
    ensures var marks := Exec(NextIsZero(), Start(row, 1), run).value.marks;
            CountIn(marks, -1 - ahead, 0) == ahead + 1 && forall i, k | 0 <= i < k < |marks| :: marks[i] < marks[k]
    ensures FiresIn(OnlyAtZero(), -1 - ahead, 0) == {0}
  {
    hide Step, ClockAhead, Exec, Describes;
    ZeroDescribes("");
    row := TriggeredTimes(ahead, 0).row;
    assert Start(row, 1).schedulers == [Idle] && TriggeredTimes(ahead, 0).marks == [];
    assert Start(row, 1) == TriggeredTimes(ahead, 0);
    run := AheadTriggers(ahead, 0);
    CountAll(TriggeredTimes(ahead, ahead + 1).marks, -1 - ahead, 0);
  }
}
