/** When the attempts of one job start, and which jobs are sent after they expired. */
module SendWindow {
  import opened Delivery
  import opened WorkerProtocol
  import opened SingleConsumer
  import opened Environment
  import opened RetryEngine
  import opened JobProcessor

  /** The first attempt waits for send_after up to the largest delay, and follows an expiry that was
      still ahead at the check by at most that delay and the time the claim takes. */
  lemma FirstCallWindow(job: Job, at: int, maxSendDelay: int, w: JobWeather)
    ensures job.sendAfter.Some? ==>
              var sendAfter, bound := job.sendAfter.value, at + maxSendDelay;
              FirstCall(job, at, maxSendDelay, w) >= if sendAfter < bound then sendAfter else bound
    ensures job.expiresAt.Some? && at + w.readTook <= job.expiresAt.value ==>
              FirstCall(job, at, maxSendDelay, w) <= job.expiresAt.value + Slept(maxSendDelay) + w.claimTook
  {
  }

  /** The time the i attempts after e take in their own calls. */
  function Charged(e: nat, i: nat, env: nat -> Weather): nat {
    if i == 0 then 0 else Charged(e, i - 1, env) + env(e + i).took
  }

  /** The delays between the attempts add at most the largest configured one each. */
  lemma {:induction false} LaterCallWindow(at: int, e: nat, i: nat, delays: seq<int>, env: nat -> Weather, largest: nat)
    requires forall d | d in delays :: d <= largest
    ensures at + Charged(e, i, env) <= CallAt(at, e, i, delays, env) <= at + Charged(e, i, env) + i * largest
  {
    if i > 0 {
      LaterCallWindow(at, e, i - 1, delays, env, largest);
      assert GetRetryDelay(e + i, delays) <= largest;
      assert i * largest == (i - 1) * largest + largest;
    }
  }

  // ---------------------------------------------------------------------------------------
  // Jobs sent after they expired, by a program that takes no time of its own

  ghost predicate Instant(env: nat -> Weather) {
    forall n: nat :: env(n).took == 0
  }

  /** The delays slept after the failed attempts e + 1 to n. */
  function Backoff(e: nat, n: nat, delays: seq<int>): nat {
    if n <= e then 0 else Backoff(e, n - 1, delays) + Slept(GetRetryDelay(n, delays))
  }

  lemma {:induction false} BackoffGrows(e: nat, n: nat, m: nat, delays: seq<int>)
    requires n <= m
    ensures Backoff(e, n, delays) <= Backoff(e, m, delays)
    decreases m - n
  {
    hide GetRetryDelay;
    if n < m {
      BackoffGrows(e, n, m - 1, delays);
    }
  }

  lemma {:induction false} InstantCallAt(at: int, e: nat, i: nat, delays: seq<int>, env: nat -> Weather)
    requires Instant(env)
    ensures CallAt(at, e, i, delays, env) == at + Backoff(e, e + i, delays)
  {
    hide GetRetryDelay;
    if i > 0 {
      InstantCallAt(at, e, i - 1, delays, env);
    }
  }

  /** Every attempt is refused at once. */
  function Refusing(): nat -> Weather {
    (_: nat) => Weather(Some("refused"), None, None, true, 0)
  }

  lemma RefusingStops(e: nat, max: nat)
    requires e < max
    ensures Stop(e, max, Refusing()) == max && Instant(Refusing())
  {
  }

  /** No attempt of an unexpired job, whatever its sender does, starts after the job expires, if and only
      if the first attempt does not, and the delays of the whole budget fit in as well. The first attempt
      starts too late exactly when send_after and the largest delay both reach past the expiry. */
  lemma NeverLateIff(job: Job, at: int, maxSendDelay: int, e: nat, max: nat, delays: seq<int>)
    requires e < max && job.expiresAt.Some? && !IsExpired(job, at)
    ensures var first, expiry := ReadyAt(job, at, maxSendDelay), job.expiresAt.value;
            && ((forall env: nat -> Weather, i: nat | Instant(env) && i < Stop(e, max, env) - e ::
                   CallAt(first, e, i, delays, env) <= expiry)
                <==> first + Backoff(e, max - 1, delays) <= expiry)
            && (first > expiry <==> job.sendAfter.Some? && job.sendAfter.value > expiry && at + maxSendDelay > expiry)
  {
    hide CallAt, GetRetryDelay, Backoff, Judge;
    var first, expiry := ReadyAt(job, at, maxSendDelay), job.expiresAt.value;
    if first + Backoff(e, max - 1, delays) <= expiry {
      forall env: nat -> Weather, i: nat | Instant(env) && i < Stop(e, max, env) - e
        ensures CallAt(first, e, i, delays, env) <= expiry
      {
        InstantCallAt(first, e, i, delays, env);
        BackoffGrows(e, e + i, max - 1, delays);
      }
    } else {
      RefusingStops(e, max);
      InstantCallAt(first, e, max - 1 - e, delays, Refusing());
      assert !(CallAt(first, e, max - 1 - e, delays, Refusing()) <= expiry);
    }
  }

  /** Expires at 5, and is to be sent at 10. */
  const LATE: Job := Job(0, 0, Email, Some(10), Some(5))

  /** Nothing fails, and nothing takes time. */
  function Fine(): JobWeather {
    JobWeather(true, 0, None, true, true, 0, (_: nat) => Weather(None, None, None, true, 0))
  }

  lemma LateJobIsSent(c: Config)
    requires c == Config(3, 300)
    ensures Prepares(c, map[], LATE, 0, 300, Fine()).Wins? && FirstCall(LATE, 0, 300, Fine()) == 10
    ensures HandledJob(c, map[], LATE, 0, 300, Fine()).calls == 1
    ensures HandledTable(c, map[], LATE, 0, 300, Fine(), 10) == map[0 := Row(0, Email, Sent, 1, None, Some(10), None)]
  {
    assert Judge(3, 1, Fine().attempts(1)) == Delivered;
    assert Stop(0, 3, Fine().attempts) == 1;
  }

  lemma FineTakesNoTime()
    ensures Fine().attempts(1).took == 0
  {
  }

  /** The late job arrives at instant 0 and is sent at 10. */
  method LateDelivery() returns (calls: seq<Call>, table: Table)
    ensures calls == [Call(LATE, 10)] && LATE.expiresAt == Some(5)
    ensures table == map[0 := Row(0, Email, Sent, 1, None, Some(10), None)]
  {
    hide Fine, Prepares, FirstCall, HandledJob, HandledTable, HandledAt, Reaches, CallsAdded, MarkedExpired, Late;
    var repo := new NotificationDeliveryRepository();
    var sender := new Sender();
    var dlq := new DlqPublisher();
    var clock := new Clock(0);
    var processor := new JobProcessor(3, 300, 300, [1, 3, 10], sender, repo, dlq, clock);
    ghost var world := World(processor.Settings(), [Valid(LATE)], (_: nat) => MessageWeather(Fine(), true, true, false));
    ghost var s := Consumer(Store(map[], []), Reading(LATE), 1, 0);
    LateJobIsSent(processor.Settings());
    var raised, instants;
    ghost var run, end;
    raised, instants, run, end := processor.HandleJob(LATE, Fine(), world, s);
    calls, table := sender.calls, repo.table;
    assert Fine().attempts(1).took == 0 by { FineTakesNoTime(); }
  }
}
