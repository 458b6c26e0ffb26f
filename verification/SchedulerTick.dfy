/** One tick of the scheduler, as the program runs it on the campaigns table. */
module SchedulerTick {
  import opened Delivery
  import opened CampaignScheduler

  /** One id stands before another. */
  ghost predicate Before(order: seq<nat>, first: nat, second: nat) {
    exists i, k :: 0 <= i < k < |order| && order[i] == first && order[k] == second
  }

  ghost predicate Ordered(order: seq<nat>, campaigns: seq<Campaign>) {
    forall i, k | 0 <= i < k < |campaigns| :: Before(order, campaigns[i].id, campaigns[k].id)
  }

  predicate Distinct(campaigns: seq<Campaign>) {
    forall i, k | 0 <= i < k < |campaigns| :: campaigns[i].id != campaigns[k].id
  }

  /** The active rows in the given order. */
  function ActiveRows(rows: map<nat, Campaign>, order: seq<nat>): seq<Campaign>
    requires forall i | 0 <= i < |order| :: order[i] in rows
  {
    if order == [] then []
    else
      var row := rows[order[|order| - 1]];
      ActiveRows(rows, order[..|order| - 1]) + if row.status == Active then [row] else []
  }

  /** Each id stands in the order once, under its own row. */
  predicate Listed(rows: map<nat, Campaign>, order: seq<nat>) {
    && (forall i | 0 <= i < |order| :: order[i] in rows && rows[order[i]].id == order[i])
    && (forall i, k | 0 <= i < k < |order| :: order[i] != order[k])
  }

  /** Where the k-th active row stands in the order. */
  lemma {:induction false} ActiveRowsFrom(rows: map<nat, Campaign>, order: seq<nat>, k: nat) returns (x: nat)
    requires Listed(rows, order) && k < |ActiveRows(rows, order)|
    ensures x < |order| && ActiveRows(rows, order)[k] == rows[order[x]] && rows[order[x]].status == Active
  {
    var last := |order| - 1;
    if k < |ActiveRows(rows, order[..last])| {
      x := ActiveRowsFrom(rows, order[..last], k);
    } else {
      x := last;
    }
  }

  /** No active row is left out. */
  lemma {:induction false} ActiveRowsAll(rows: map<nat, Campaign>, order: seq<nat>, x: nat)
    requires Listed(rows, order) && x < |order| && rows[order[x]].status == Active
    ensures rows[order[x]] in ActiveRows(rows, order)
  {
    var last := |order| - 1;
    if x < last {
      ActiveRowsAll(rows, order[..last], x);
    }
  }

  /** Two active rows stand in the order as they do in the result. */
  lemma {:induction false} ActiveRowsOrdered(rows: map<nat, Campaign>, order: seq<nat>, i: nat, k: nat)
    returns (x: nat, y: nat)
    requires Listed(rows, order) && i < k < |ActiveRows(rows, order)|
    ensures x < y < |order|
    ensures ActiveRows(rows, order)[i] == rows[order[x]] && ActiveRows(rows, order)[k] == rows[order[y]]
  {
    var last := |order| - 1;
    if k < |ActiveRows(rows, order[..last])| {
      x, y := ActiveRowsOrdered(rows, order[..last], i, k);
    } else {
      x := ActiveRowsFrom(rows, order[..last], i);
      y := last;
    }
  }

  lemma ActiveRowsExact(rows: map<nat, Campaign>, order: seq<nat>)
    requires Listed(rows, order)
    ensures var active := ActiveRows(rows, order);
            && (forall i | 0 <= i < |active| ::
                  active[i].id in rows && active[i] == rows[active[i].id] && active[i].status == Active)
            && (forall x | 0 <= x < |order| && rows[order[x]].status == Active :: rows[order[x]] in active)
            && Distinct(active) && Ordered(order, active)
  {
    hide ActiveRows;
    var active := ActiveRows(rows, order);
    forall i | 0 <= i < |active|
      ensures active[i].id in rows && active[i] == rows[active[i].id] && active[i].status == Active
    {
      var x := ActiveRowsFrom(rows, order, i);
    }
    forall x | 0 <= x < |order| && rows[order[x]].status == Active
      ensures rows[order[x]] in active
    {
      ActiveRowsAll(rows, order, x);
    }
    forall i, k | 0 <= i < k < |active|
      ensures active[i].id != active[k].id && Before(order, active[i].id, active[k].id)
    {
      var x, y := ActiveRowsOrdered(rows, order, i, k);
    }
  }

  /** The row has one more run, triggered at dbNow, and is active exactly while its cap leaves another. */
  predicate Counted(was: Campaign, row: Campaign, dbNow: int) {
    && row.runsCount == was.runsCount + 1 && row.lastTriggeredAt == Some(dbNow)
    && row.id == was.id && row.cron == was.cron && row.maxRuns == was.maxRuns
    && row.status == if was.maxRuns.Some? && was.runsCount + 1 >= was.maxRuns.value then Inactive else Active
  }

  /** The events endpoint of the API. */
  class EventsApi {
    var posts: seq<nat>

    constructor ()
      ensures posts == []
    {
      posts := [];
    }

    /** POST of a campaign_triggered event; `accepted` is what the API, or the network, makes of it. */
    method Post(id: nat, accepted: bool) returns (ok: bool)
      modifies this
      ensures posts == old(posts) + [id] && ok == accepted
    {
      posts := posts + [id];
      ok := accepted;
    }
  }

  class CampaignRepository {
    var rows: map<nat, Campaign>
    var order: seq<nat>          // ids by created_at

    ghost predicate Valid()
      reads this
    {
      Listed(rows, order) && forall id | id in rows :: id in order
    }

    constructor (rows: map<nat, Campaign>, order: seq<nat>)
      requires Listed(rows, order) && forall id | id in rows :: id in order
      ensures Valid() && this.rows == rows && this.order == order
    {
      this.rows, this.order := rows, order;
    }

    /** SELECT ... WHERE status = ACTIVE ORDER BY created_at */
    method GetActiveCampaigns() returns (campaigns: seq<Campaign>)
      requires Valid()
      ensures campaigns == ActiveRows(rows, order)
      ensures forall i | 0 <= i < |campaigns| ::
                campaigns[i].id in rows && campaigns[i] == rows[campaigns[i].id] && campaigns[i].status == Active
      ensures forall id | id in rows && rows[id].status == Active :: rows[id] in campaigns
      ensures Distinct(campaigns) && Ordered(order, campaigns)
    {
      hide Ordered, Distinct;
      campaigns := [];
      for n := 0 to |order|
        invariant campaigns == ActiveRows(rows, order[..n])
      {
        assert order[..n + 1][..n] == order[..n];
        var row := rows[order[n]];
        if row.status == Active {
          campaigns := campaigns + [row];
        }
      }
      assert order[..|order|] == order;
      ActiveRowsExact(rows, order);
    }

    method MarkCampaignTriggered(id: nat, dbNow: int)
      requires Valid()
      modifies `rows
      ensures Valid()
      ensures rows == if id in old(rows) then old(rows)[id := Triggered(old(rows)[id], dbNow)] else old(rows)
      ensures id in old(rows) ==> Counted(old(rows)[id], rows[id], dbNow)
    {
      if id in rows {
        var row := rows[id];
        var count := row.runsCount + 1;
        var status := if row.maxRuns.Some? && count >= row.maxRuns.value then Inactive else Active;
        rows := rows[id := row.(lastTriggeredAt := Some(dbNow), runsCount := count, status := status)];
      }
    }
  }

  /** posted: the API accepted the event; marked: the UPDATE did not raise. */
  datatype Weather = Weather(posted: bool, marked: bool, dbNow: int)

  /** What a tick that holds any snapshot of a campaign, fresh or stale, makes of the stored row. */
  function TickStored(next: Croniter, seen: Campaign, stored: Campaign, now: int, w: Weather): Campaign {
    if IsCampaignDue(next, seen, now) && w.posted && w.marked then Triggered(stored, w.dbNow) else stored
  }

  /** What a tick at `now` makes of one row. */
  function TickRow(next: Croniter, row: Campaign, now: int, w: Weather): Campaign {
    if row.status == Active then TickStored(next, row, row, now, w) else row
  }

  /** The tick has changed the stored row of the snapshot's campaign, and no other. */
  ghost predicate OnlyStored(next: Croniter, seen: Campaign, was: map<nat, Campaign>, rows: map<nat, Campaign>, now: int,
                             w: Weather) {
    && rows.Keys == was.Keys
    && forall id | id in rows :: rows[id] == if id == seen.id then TickStored(next, seen, was[id], now, w) else was[id]
  }

  /** The stored row is triggered, once, exactly when the snapshot's cap leaves a run, a fire has come since
      its last trigger, the API accepted the event and the UPDATE did not raise; else it stays as it is. */
  lemma TickStoredExact(next: Croniter, seen: Campaign, stored: Campaign, now: int, w: Weather, fires: int -> bool)
    requires Describes(next, seen.cron, fires)
    ensures var row := TickStored(next, seen, stored, now, w);
            if UnderCap(seen) && FiredSince(seen.lastTriggeredAt, fires, now) && w.posted && w.marked
            then Counted(stored, row, w.dbNow) else row == stored
  {
    DueIff(next, seen, now, fires);
  }

  method ProcessCampaign(next: Croniter, campaign: Campaign, api: EventsApi, repo: CampaignRepository, now: int, w: Weather)
    requires repo.Valid()
    modifies api, repo`rows
    ensures repo.Valid() && repo.rows.Keys == old(repo.rows).Keys
    // the snapshot decides, the stored row is updated, and no other row changes
    ensures OnlyStored(next, campaign, old(repo.rows), repo.rows, now, w)
    // a due campaign is posted once, and counted only when the event was accepted and the UPDATE succeeded
    ensures api.posts == old(api.posts) + if IsCampaignDue(next, campaign, now) then [campaign.id] else []
    ensures !(IsCampaignDue(next, campaign, now) && w.posted && w.marked) ==> repo.rows == old(repo.rows)
    ensures IsCampaignDue(next, campaign, now) && w.posted && w.marked && campaign.id in old(repo.rows) ==>
              Counted(old(repo.rows)[campaign.id], repo.rows[campaign.id], w.dbNow)
  {
    var due := IsCampaignDue(next, campaign, now);
    if !due {
      return;
    }
    var accepted := api.Post(campaign.id, w.posted);
    if !accepted {
      return;
    }
    if w.marked {
      repo.MarkCampaignTriggered(campaign.id, w.dbNow);
    }
  }

  /** The ids of the due campaigns, in order. */
  function DueIds(next: Croniter, campaigns: seq<Campaign>, now: int): seq<nat> {
    if campaigns == [] then []
    else
      var last := campaigns[|campaigns| - 1];
      DueIds(next, campaigns[..|campaigns| - 1], now) + if IsCampaignDue(next, last, now) then [last.id] else []
  }

  /** How often the last campaign adds an id. */
  lemma DueIdsLast(next: Croniter, campaigns: seq<Campaign>, now: int, id: nat)
    requires campaigns != []
    ensures var prev, last := campaigns[..|campaigns| - 1], campaigns[|campaigns| - 1];
            var added := if last.id == id && IsCampaignDue(next, last, now) then 1 else 0;
            multiset(DueIds(next, campaigns, now))[id] == multiset(DueIds(next, prev, now))[id] + added
  {
    hide IsCampaignDue;
    var prev, last := campaigns[..|campaigns| - 1], campaigns[|campaigns| - 1];
    var ids := DueIds(next, prev, now);
    assert multiset(ids + [last.id]) == multiset(ids) + multiset{last.id};
    assert ids + [] == ids;
  }

  lemma {:induction false} DueIdsNone(next: Croniter, campaigns: seq<Campaign>, now: int, id: nat)
    requires forall i | 0 <= i < |campaigns| :: campaigns[i].id != id
    ensures multiset(DueIds(next, campaigns, now))[id] == 0
  {
    if campaigns == [] {
      assert DueIds(next, campaigns, now) == [];
    } else {
      hide DueIds, IsCampaignDue;
      DueIdsLast(next, campaigns, now, id);
      DueIdsNone(next, campaigns[..|campaigns| - 1], now, id);
    }
  }

  lemma {:induction false} DueIdsOnce(next: Croniter, campaigns: seq<Campaign>, now: int, i: nat)
    requires Distinct(campaigns) && i < |campaigns|
    ensures multiset(DueIds(next, campaigns, now))[campaigns[i].id] == if IsCampaignDue(next, campaigns[i], now) then 1 else 0
  {
    hide DueIds, IsCampaignDue;
    var last := |campaigns| - 1;
    var prev := campaigns[..last];
    DueIdsLast(next, campaigns, now, campaigns[i].id);
    if i < last {
      assert prev[i] == campaigns[i] && campaigns[last].id != campaigns[i].id;
      DueIdsOnce(next, prev, now, i);
    } else {
      DueIdsNone(next, prev, now, campaigns[i].id);
    }
  }

  lemma NoneDue(next: Croniter, now: int)
    ensures DueIds(next, [], now) == []
  {
  }

  lemma DueIdsNext(next: Croniter, campaigns: seq<Campaign>, i: nat, now: int)
    requires i < |campaigns|
    ensures DueIds(next, campaigns[..i + 1], now)
         == DueIds(next, campaigns[..i], now) + if IsCampaignDue(next, campaigns[i], now) then [campaigns[i].id] else []
  {
    assert campaigns[..i + 1][..i] == campaigns[..i];
  }

  /** A tick posts every active campaign that is due once, and no other. */
  lemma PostedOnceIff(next: Croniter, rows: map<nat, Campaign>, order: seq<nat>, now: int, id: nat)
    requires Listed(rows, order) && id in rows && id in order
    ensures multiset(DueIds(next, ActiveRows(rows, order), now))[id]
         == if rows[id].status == Active && IsCampaignDue(next, rows[id], now) then 1 else 0
  {
    hide ActiveRows, DueIds, IsCampaignDue, Ordered, Distinct;
    var active := ActiveRows(rows, order);
    ActiveRowsExact(rows, order);
    if rows[id].status == Active {
      var x :| 0 <= x < |order| && order[x] == id;
      assert rows[order[x]] in active;
      var i :| 0 <= i < |active| && active[i] == rows[id];
      DueIdsOnce(next, active, now, i);
    } else {
      DueIdsNone(next, active, now, id);
    }
  }

  /** The rows in `done` have been treated, each by itself, and no other. */
  ghost predicate Treated(next: Croniter, was: map<nat, Campaign>, rows: map<nat, Campaign>, done: set<nat>, now: int,
                          weather: nat -> Weather) {
    && rows.Keys == was.Keys
    && forall id | id in was :: rows[id] == if id in done then TickRow(next, was[id], now, weather(id)) else was[id]
  }

  lemma NoneTreated(next: Croniter, was: map<nat, Campaign>, now: int, weather: nat -> Weather)
    ensures Treated(next, was, was, {}, now, weather)
  {
  }

  lemma TreatOne(next: Croniter, was: map<nat, Campaign>, rows: map<nat, Campaign>, rows': map<nat, Campaign>,
                 done: set<nat>, row: Campaign, now: int, weather: nat -> Weather)
    requires Treated(next, was, rows, done, now, weather)
    requires row.id in was && row.id !in done && row == was[row.id] && row.status == Active
    requires OnlyStored(next, row, rows, rows', now, weather(row.id))
    ensures Treated(next, was, rows', done + {row.id}, now, weather)
  {
    hide TickStored;
  }

  lemma AllTreated(next: Croniter, was: map<nat, Campaign>, rows: map<nat, Campaign>, done: set<nat>, now: int,
                   weather: nat -> Weather)
    requires Treated(next, was, rows, done, now, weather)
    requires forall id | id in was :: id in done || was[id].status != Active
    ensures rows.Keys == was.Keys && forall id | id in rows :: rows[id] == TickRow(next, was[id], now, weather(id))
    ensures forall id | id in rows && !(was[id].status == Active && weather(id).posted && weather(id).marked) :: rows[id] == was[id]
  {
  }

  /** Every row is treated once, as if the scheduler had looked at that row alone. */
  method ProcessTick(next: Croniter, api: EventsApi, repo: CampaignRepository, now: int, fetched: bool, weather: nat -> Weather)
    requires repo.Valid()
    modifies api, repo`rows
    ensures repo.Valid() && repo.rows.Keys == old(repo.rows).Keys
    ensures !fetched ==> repo.rows == old(repo.rows) && api.posts == old(api.posts)
    ensures fetched ==> forall id | id in repo.rows :: repo.rows[id] == TickRow(next, old(repo.rows)[id], now, weather(id))
    // each due campaign is posted, in order, and no row is counted without an accepted event
    ensures fetched ==> api.posts == old(api.posts) + DueIds(next, ActiveRows(old(repo.rows), repo.order), now)
    ensures forall id | id in repo.rows && !(old(repo.rows)[id].status == Active && weather(id).posted && weather(id).marked) ::
              repo.rows[id] == old(repo.rows)[id]
  {
    hide TickStored, OnlyStored, Ordered, TickRow, Treated, Counted, DueIds, ActiveRows, IsCampaignDue;
    NoneDue(next, now);
    if !fetched {
      return;
    }
    ghost var was, done := repo.rows, {};
    var campaigns := repo.GetActiveCampaigns();
    NoneTreated(next, was, now, weather);
    var i := 0;
    while i < |campaigns|
      invariant 0 <= i <= |campaigns| && repo.Valid() && Treated(next, was, repo.rows, done, now, weather)
      invariant api.posts == old(api.posts) + DueIds(next, campaigns[..i], now)
      invariant forall k | 0 <= k < i :: campaigns[k].id in done
      invariant forall k | i <= k < |campaigns| :: campaigns[k].id !in done
    {
      ghost var rows := repo.rows;
      ProcessCampaign(next, campaigns[i], api, repo, now, weather(campaigns[i].id));
      TreatOne(next, was, rows, repo.rows, done, campaigns[i], now, weather);
      done := done + {campaigns[i].id};
      DueIdsNext(next, campaigns, i, now);
      i := i + 1;
    }
    assert campaigns[..|campaigns|] == campaigns;
    forall id | id in was
      ensures id in done || was[id].status != Active
    {
      assert id !in done ==> was[id] !in campaigns;
    }
    AllTreated(next, was, repo.rows, done, now, weather);
  }

  /** One more action in front of a run. */
  lemma Then(next: Croniter, s: State, l: Label, s': State, rest: seq<Label>) returns (run: seq<Label>)
    requires Step(next, s, l) == Some(s') && Exec(next, s', rest).Some?
    ensures run == [l] + rest && Exec(next, s, run) == Exec(next, s', rest)
    ensures Timely(next, s', rest)
            && (l.action.Mark? && s.schedulers[l.scheduler].Posted? ==> l.action.dbNow >= s.schedulers[l.scheduler].now) ==>
              Timely(next, s, run)
  {
    hide Step;
    run := [l] + rest;
    assert run[0] == l && run[1..] == rest;
  }

  /** The triggers one tick records for one row. */
  function TickMarks(next: Croniter, row: Campaign, now: int, w: Weather): seq<int> {
    if row.status == Active && IsCampaignDue(next, row, now) && w.posted && w.marked then [w.dbNow] else []
  }

  /** Every action of the run reads the clock, and meets the API and the database, as the tick does. */
  ghost predicate MeetsWeather(run: seq<Label>, now: int, w: Weather) {
    forall i | 0 <= i < |run| ::
      match run[i].action
      case Fetch(read) => read == now
      case Decide(posted) => posted == w.posted
      case Mark(dbNow, ok) => dbNow == w.dbNow && ok == w.marked
      case Crash => false
  }

  /** A tick on one row is a run of a single scheduler. */
  lemma TickIsRun(next: Croniter, row: Campaign, marks: seq<int>, now: int, w: Weather) returns (run: seq<Label>)
    ensures Exec(next, State(row, [Idle], marks), run)
         == Some(State(TickRow(next, row, now, w), [Idle], marks + TickMarks(next, row, now, w)))
    ensures MeetsWeather(run, now, w)
    ensures w.dbNow >= now ==> Timely(next, State(row, [Idle], marks), run)
  {
    hide IsCampaignDue;
    run := [];
    var start, held, posted := State(row, [Idle], marks), State(row, [Holding(row, now)], marks), State(row, [Posted(now)], marks);
    assert start.schedulers[0 := Holding(row, now)] == held.schedulers;
    assert held.schedulers[0 := Posted(now)] == posted.schedulers;
    assert held.schedulers[0 := Idle] == start.schedulers && posted.schedulers[0 := Idle] == start.schedulers;
    assert marks + [] == marks;
    if row.status == Active {
      if IsCampaignDue(next, row, now) && w.posted {
        var marked := Step(next, posted, Label(0, Mark(w.dbNow, w.marked))).value;
        run := Then(next, posted, Label(0, Mark(w.dbNow, w.marked)), marked, run);
        run := Then(next, held, Label(0, Decide(true)), posted, run);
      } else {
        run := Then(next, held, Label(0, Decide(w.posted)), start, run);
      }
      run := Then(next, start, Label(0, Fetch(now)), held, run);
    }
  }

  datatype Tick = Tick(now: int, w: Weather)

  function RowAfter(next: Croniter, row: Campaign, ticks: seq<Tick>): Campaign {
    if ticks == [] then row
    else
      var before := RowAfter(next, row, ticks[..|ticks| - 1]);
      TickRow(next, before, ticks[|ticks| - 1].now, ticks[|ticks| - 1].w)
  }

  function MarksAfter(next: Croniter, row: Campaign, ticks: seq<Tick>): seq<int> {
    if ticks == [] then []
    else
      var before := RowAfter(next, row, ticks[..|ticks| - 1]);
      MarksAfter(next, row, ticks[..|ticks| - 1]) + TickMarks(next, before, ticks[|ticks| - 1].now, ticks[|ticks| - 1].w)
  }

  lemma {:induction false} TicksJoined(next: Croniter, s: State, first: seq<Label>, mid: State, second: seq<Label>)
    requires Exec(next, s, first) == Some(mid) && Exec(next, mid, second).Some?
    ensures Exec(next, s, first + second) == Exec(next, mid, second)
    ensures Timely(next, s, first) && Timely(next, mid, second) ==> Timely(next, s, first + second)
    decreases |first|
  {
    hide Step;
    if first == [] {
      assert first + second == second;
    } else {
      TicksJoined(next, Step(next, s, first[0]).value, first[1..], mid, second);
      assert (first + second)[1..] == first[1..] + second;
    }
  }

  /** Any sequence of ticks is a run of a single scheduler. */
  lemma {:induction false} TicksAreRun(next: Croniter, row: Campaign, ticks: seq<Tick>) returns (run: seq<Label>)
    ensures Exec(next, Start(row, 1), run) == Some(State(RowAfter(next, row, ticks), [Idle], MarksAfter(next, row, ticks)))
    ensures (forall t | t in ticks :: t.w.dbNow >= t.now) ==> Timely(next, Start(row, 1), run)
    decreases |ticks|
  {
    hide Step, TickRow, TickMarks;
    assert Start(row, 1).schedulers == [Idle];
    run := [];
    if ticks != [] {
      var prev, t := ticks[..|ticks| - 1], ticks[|ticks| - 1];
      run := TicksAreRun(next, row, prev);
      var mid := State(RowAfter(next, row, prev), [Idle], MarksAfter(next, row, prev));
      var more := TickIsRun(next, mid.row, mid.marks, t.now, t.w);
      TicksJoined(next, Start(row, 1), run, mid, more);
      run := run + more;
      assert t in ticks && forall u | u in prev :: u in ticks;
    }
  }

  /** Over any number of ticks of one scheduler: the cap is exact, and in every window the recorded
      triggers are at most one more than the cron fires. */
  lemma TicksBounded(next: Croniter, row: Campaign, ticks: seq<Tick>, fires: int -> bool, lo: int, hi: int)
    requires Describes(next, row.cron, fires)
    requires forall t | t in ticks :: t.w.dbNow >= t.now
    ensures CountIn(MarksAfter(next, row, ticks), lo, hi) <= 1 + |FiresIn(fires, lo, hi)|
    ensures row.maxRuns.Some? && row.runsCount <= row.maxRuns.value ==> RowAfter(next, row, ticks).runsCount <= row.maxRuns.value
    ensures RowAfter(next, row, ticks).runsCount == row.runsCount + |MarksAfter(next, row, ticks)|
  {
    var run := TicksAreRun(next, row, ticks);
    TriggersCounted(next, Start(row, 1), run);
    CronBound(next, row, fires, run, lo, hi);
    if row.maxRuns.Some? {
      RunCap(next, row, 1, run);
    }
  }
}
