/** The two-statement claim against a system whose claim is one compare-and-set. */
module Linearization {
  import opened Delivery
  import opened WorkerProtocol
  import opened MultiWorker

  /** A worker's action with the claim done in one atomic step and no place between its statements. */
  function AtomicAct(c: Config, w: nat, t: Table, pc: Pc, a: Action): Effect {
    if pc.Updating? then Blocked
    else if pc.Inserting? && a.Insert? && a.ok then
      var claim := AtomicClaim(t, pc.job, a.now, c.staleAfter);
      if claim.claimed then
        Effect(claim.table, JobEvent(w, pc.job.id, Claimed(pc.snap, a.now, pc.job.id !in t)), Looping(pc.job, pc.snap))
      else
        Effect(claim.table, JobEvent(w, pc.job.id, Refused(a.now)), Busy(pc.job))
    else Act(c, w, t, pc, a)
  }

  function AtomicSystemStep(c: Config, s: System, l: Label): Option<System> {
    if l.worker >= |s.workers| then None
    else
      var e := AtomicAct(c, l.worker, s.store.table, s.workers[l.worker], l.action);
      if e.Blocked? then None else Some(System(s.store.After(e), s.workers[l.worker := e.pc]))
  }

  function AtomicExec(c: Config, s: System, run: seq<Label>): Option<System>
    decreases |run|
  {
    if run == [] then Some(s)
    else
      match AtomicSystemStep(c, s, run[0])
      case None => None
      case Some(next) => AtomicExec(c, next, run[1..])
  }

  /** A worker between the two statements has not claimed yet. */
  function AbsPc(pc: Pc): Pc {
    if pc.Updating? then Inserting(pc.job, pc.snap) else pc
  }

  function Abs(s: System): System {
    System(s.store, seq(|s.workers|, w requires 0 <= w < |s.workers| => AbsPc(s.workers[w])))
  }

  /** The linearization point of each step: none for an INSERT that hits a row, the UPDATE after it
      stands for the whole claim at the instant read before the INSERT. */
  function Linearized(s: System, l: Label): seq<Label> {
    if l.worker >= |s.workers| then [l]
    else
      var pc := s.workers[l.worker];
      if pc.Inserting? && l.action.Insert? && l.action.ok && pc.job.id in s.store.table then []
      else if pc.Updating? && l.action.Update? then [Label(l.worker, Insert(pc.now, l.action.ok))]
      else [l]
  }

  function LinearizedRun(c: Config, s: System, run: seq<Label>): seq<Label>
    requires Exec(c, s, run).Some?
    decreases |run|
  {
    if run == [] then []
    else Linearized(s, run[0]) + LinearizedRun(c, SystemStep(c, s, run[0]).value, run[1..])
  }

  ghost predicate UpdatingHasRow(s: System) {
    forall w | 0 <= w < |s.workers| :: s.workers[w].Updating? ==> s.workers[w].job.id in s.store.table
  }

  lemma StepSimulated(c: Config, s: System, l: Label)
    requires UpdatingHasRow(s) && SystemStep(c, s, l).Some?
    ensures var s' := SystemStep(c, s, l).value;
            UpdatingHasRow(s') && AtomicExec(c, Abs(s), Linearized(s, l)) == Some(Abs(s'))
  {
    var s' := SystemStep(c, s, l).value;
    var points := Linearized(s, l);
    var w := l.worker;
    assert s.workers[w].Updating? ==> s.workers[w].job.id in s.store.table;
    assert Abs(s').workers == Abs(s).workers[w := AbsPc(s'.workers[w])];
    if points == [] {
      assert Abs(s).workers[w := AbsPc(s'.workers[w])] == Abs(s).workers;
    } else {
      assert points[1..] == [];
      assert AtomicSystemStep(c, Abs(s), points[0]) == Some(Abs(s'));
    }
  }

  lemma {:induction false} AtomicExecConcat(c: Config, s: System, first: seq<Label>, second: seq<Label>)
    requires AtomicExec(c, s, first).Some?
    ensures AtomicExec(c, s, first + second) == AtomicExec(c, AtomicExec(c, s, first).value, second)
    decreases |first|
  {
    hide AtomicSystemStep;
    if first == [] {
      assert first + second == second;
    } else {
      AtomicExecConcat(c, AtomicSystemStep(c, s, first[0]).value, first[1..], second);
      assert (first + second)[1..] == first[1..] + second;
    }
  }

  lemma {:induction false} RunSimulated(c: Config, s: System, run: seq<Label>)
    requires UpdatingHasRow(s) && Exec(c, s, run).Some?
    ensures AtomicExec(c, Abs(s), LinearizedRun(c, s, run)) == Some(Abs(Exec(c, s, run).value))
    decreases |run|
  {
    hide SystemStep, AtomicSystemStep, Linearized, Abs;
    if run != [] {
      var next := SystemStep(c, s, run[0]).value;
      StepSimulated(c, s, run[0]);
      RunSimulated(c, next, run[1..]);
      AtomicExecConcat(c, Abs(s), Linearized(s, run[0]), LinearizedRun(c, next, run[1..]));
    }
  }

  /** Every interleaving of two-statement claims, saves and crashes has the table, the claim results
      and the whole history of a run whose claims are atomic, each at a point inside its call. */
  lemma ClaimLinearizable(c: Config, n: nat, run: seq<Label>)
    requires Exec(c, Init(n), run).Some?
    ensures var atomic := AtomicExec(c, Init(n), LinearizedRun(c, Init(n), run));
            && atomic.Some?
            && atomic.value.store == Exec(c, Init(n), run).value.store
            && atomic.value == Abs(Exec(c, Init(n), run).value)
  {
    assert Abs(Init(n)) == Init(n);
    RunSimulated(c, Init(n), run);
  }

  // ---------------------------------------------------------------------------------------
  // The other direction: the split claim loses no behaviour of the atomic one

  function Split(s: System, l: Label): seq<Label> {
    if l.worker < |s.workers| && l.action.Insert? && l.action.ok && s.workers[l.worker].Inserting?
       && s.workers[l.worker].job.id in s.store.table
    then [l, Label(l.worker, Update(true))]
    else [l]
  }

  function SplitRun(c: Config, s: System, run: seq<Label>): seq<Label>
    requires AtomicExec(c, s, run).Some?
    decreases |run|
  {
    if run == [] then []
    else Split(s, run[0]) + SplitRun(c, AtomicSystemStep(c, s, run[0]).value, run[1..])
  }

  lemma StepSplit(c: Config, s: System, l: Label)
    requires AtomicSystemStep(c, s, l).Some?
    ensures Exec(c, s, Split(s, l)) == AtomicSystemStep(c, s, l)
  {
    var run := Split(s, l);
    var next := SystemStep(c, s, l).value;
    var s' := AtomicSystemStep(c, s, l).value;
    if |run| == 1 {
      assert run[1..] == [];
    } else {
      var pc := s.workers[l.worker];
      var u := Label(l.worker, Update(true));
      assert next == System(s.store, s.workers[l.worker := Updating(pc.job, pc.snap, l.action.now)]);
      assert next.workers[l.worker := s'.workers[l.worker]] == s'.workers;
      assert SystemStep(c, next, u) == Some(s');
      assert run[1..] == [u] && [u][1..] == [];
      assert Exec(c, next, [u]) == Some(s');
    }
  }

  lemma {:induction false} AtomicRunSplit(c: Config, s: System, run: seq<Label>)
    requires AtomicExec(c, s, run).Some?
    ensures Exec(c, s, SplitRun(c, s, run)) == AtomicExec(c, s, run)
    decreases |run|
  {
    hide SystemStep, AtomicSystemStep, Split;
    if run != [] {
      var next := AtomicSystemStep(c, s, run[0]).value;
      StepSplit(c, s, run[0]);
      AtomicRunSplit(c, next, run[1..]);
      ExecConcat(c, s, Split(s, run[0]), SplitRun(c, next, run[1..]));
    }
  }
}
