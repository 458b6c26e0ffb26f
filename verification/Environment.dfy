/** What the world does to one consumer process: an answer for every statement, send, publish and commit
    of each message. It fixes a run of the protocol up to the clock readings. */
module Environment {
  import opened Delivery
  import opened WorkerProtocol
  import opened SingleConsumer

  /** What happens to attempt number n: None is success, Some the exception raised. Durations are charged
      before the call returns. */
  datatype Weather = Weather(send: Option<string>, saveSent: Option<string>, saveFailure: Option<string>,
                             publish: bool, took: nat)

  /** What happens while one job is handled. */
  datatype JobWeather = JobWeather(readOk: bool, readTook: nat, saveExpired: Option<string>, insertOk: bool, updateOk: bool,
                                   claimTook: nat, attempts: nat -> Weather)

  /** publish: the DLQ publish of the message handler; commit: the offset commit; stopped: the stop flag
      is set when the message is fetched. */
  datatype MessageWeather = MessageWeather(job: JobWeather, publish: bool, commit: bool, stopped: bool)

  /** A process: its settings, its log, and the weather at each offset. */
  datatype World = World(c: Config, log: seq<Message>, weather: nat -> MessageWeather)

  /** What a status save that starts at pc meets. */
  function SaveError(w: JobWeather, pc: Pc): Option<string> {
    match pc
    case SavingExpired(_, _) => w.saveExpired
    case SavingSent(_, n) => w.attempts(n).saveSent
    case SavingFailure(_, n, _) => w.attempts(n).saveFailure
    case _ => None
  }

  /** The action meets what the weather of the message prescribes. A process that ends without a commit
      does so only because the commit raised. */
  predicate Obeys(w: MessageWeather, pc: Pc, a: Action) {
    match a
    case Receive(_) => !w.stopped
    case Read(ok) => ok == w.job.readOk
    case CheckExpiry(_) => true
    case SaveStatus(_, error) => error == SaveError(w.job, pc)
    case Insert(_, ok) => ok == w.job.insertOk
    case Update(ok) => ok == w.job.updateOk
    case Attempt => true
    case SendReturns(error) => pc.Sending? ==> error == w.job.attempts(pc.attempts).send
    case Publish(ok) => ok == if pc.PublishingFinal? then w.job.attempts(pc.attempts).publish else w.publish
    case Commit => w.commit
    case Crash => (pc.Done? || pc.Busy?) && !w.commit
  }

  /** The run leads from s to end, and each of its actions obeys the weather. A process that halts does
      nothing more. */
  predicate Reaches(world: World, s: Consumer, run: seq<Action>, end: Consumer)
    decreases |run|
  {
    if run == [] then s == end
    else
      var next := ConsumerStep(world.c, world.log, s, run[0]);
      && next.Some?
      && Obeys(world.weather(s.committed), s.pc, run[0])
      && (Halts(s.pc, run[0]) ==> run[1..] == [])
      && Reaches(world, next.value, run[1..], end)
  }

  lemma {:induction false} ReachesExecutes(world: World, s: Consumer, run: seq<Action>, end: Consumer)
    requires Reaches(world, s, run, end)
    ensures ConsumerExec(world.c, world.log, s, run) == Some(end)
    decreases |run|
  {
    hide ConsumerStep;
    if run != [] {
      ReachesExecutes(world, ConsumerStep(world.c, world.log, s, run[0]).value, run[1..], end);
    }
  }

  predicate EndsWith(run: seq<Action>, a: Action) {
    run != [] && run[|run| - 1] == a
  }

  /** The process that has come to s by this run is still there. */
  predicate GoesOn(run: seq<Action>, s: Consumer) {
    run == [] || !s.pc.Idle? || EndsWith(run, Commit)
  }

  lemma HaltsIdle(world: World, s: Consumer, a: Action)
    requires ConsumerStep(world.c, world.log, s, a).Some? && Halts(s.pc, a)
    ensures ConsumerStep(world.c, world.log, s, a).value.pc.Idle? && !a.Commit?
  {
    hide Prepare, ClaimJob, Loop;
  }

  lemma {:induction false} Joined(world: World, s: Consumer, first: seq<Action>, mid: Consumer, second: seq<Action>,
                                  end: Consumer)
    requires Reaches(world, s, first, mid) && GoesOn(first, mid) && Reaches(world, mid, second, end)
    ensures Reaches(world, s, first + second, end)
    decreases |first|
  {
    hide ConsumerStep, Obeys, Halts;
    if first == [] {
      assert first + second == second;
    } else {
      if Halts(s.pc, first[0]) {
        HaltsIdle(world, s, first[0]);
      }
      Joined(world, ConsumerStep(world.c, world.log, s, first[0]).value, first[1..], mid, second, end);
      assert (first + second)[1..] == first[1..] + second;
    }
  }

  lemma Nothing(world: World, s: Consumer)
    ensures Reaches(world, s, [], s)
  {
  }

  /** Extends a run by one action. */
  lemma Take(world: World, start: Consumer, run: seq<Action>, s: Consumer, a: Action)
    returns (run': seq<Action>, s': Consumer)
    requires Reaches(world, start, run, s) && GoesOn(run, s)
    requires ConsumerStep(world.c, world.log, s, a).Some? && Obeys(world.weather(s.committed), s.pc, a)
    ensures run' == run + [a] && Reaches(world, start, run', s') && Some(s') == ConsumerStep(world.c, world.log, s, a)
  {
    hide ConsumerStep, Obeys, Halts, GoesOn;
    s' := ConsumerStep(world.c, world.log, s, a).value;
    run' := run + [a];
    assert [a][1..] == [];
    Nothing(world, s');
    assert Reaches(world, s, [a], s');
    Joined(world, start, run, s, [a], s');
  }
}
