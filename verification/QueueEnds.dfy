/**
 * Why a session of the check queue comes to an end: a measure of the work left that only Add raises,
 * and the return of Wait in every fair run.
 */
module QueueEnds {
  import opened Common
  import opened CheckQueue

  function Weight(p: Phase): int { if p.Executing? then |p.left| + 1 else 0 }

  /** What is left to do: to take, to run and to report each check. */
  ghost function Work(s: State): int { 3 * |s.queue| + Sum(s.threads, Weight) }

  /** A step that runs a check, reports a batch or takes one, and does not just wait. */
  predicate Useful(s: State, step: Step)
    requires Enabled(s, step)
  {
    step.Run? || step.Finish? || (!step.Add? && BeforeTake(s, step).queue != [])
  }

  function Added(step: Step): nat { if step.Add? then |step.checks| else 0 }

  lemma WorkNonNegative(s: State)
    ensures Work(s) >= 0
  {
    if s.threads.Keys != {} { SumAtLeast(s.threads, Weight, Any(s.threads.Keys)); }
  }

  /** No work is left exactly when nTodo is zero. */
  lemma NoWorkLeft(s: State)
    requires Inv(s)
    ensures Work(s) == 0 <==> s.todo == 0
  {
    SumNonNegative(s.threads);
    WorkNonNegative(s.(queue := []));
    if s.todo == 0 {
      NobodyExecutes(s);
      if Sum(s.threads, Weight) > 0 { SomeLoaded(s.threads, Weight); }
    } else if s.queue == [] {
      SomeLoaded(s.threads, Load);
      var t :| t in s.threads && Load(s.threads[t]) > 0;
      SumAtLeast(s.threads, Weight, t);
    }
  }

  lemma TakeWork(s: State, t: Tid)
    requires t in s.threads && s.threads[t] == Outside
    ensures Work(TryTake(s, t)) + (if s.queue == [] then 0 else 1) <= Work(s)
  {
    SumPut(s.threads, Weight, t, TryTake(s, t).threads[t]);
  }

  lemma BeforeWork(s: State, step: Step)
    requires Enabled(s, step) && !step.Add? && !step.Run?
    ensures var m := BeforeTake(s, step);
            && step.t in m.threads && m.threads[step.t] == Outside
            && Work(m) == Work(s) - (if step.Finish? then 1 else 0)
  {
    SumPut(s.threads, Weight, step.t, Outside);
    if step.Finish? {
      var p := s.threads[step.t];
      var s1 := s.(allOk := s.allOk && p.ok, todo := s.todo - p.taken, threads := s.threads[step.t := Outside]);
      SumPut(s1.threads, Weight, MASTER, Waiting(true));
    }
  }

  lemma AddWork(s: State, step: Step)
    requires Enabled(s, step) && step.Add?
    ensures Work(Apply(s, step)) == Work(s) + 3 * |step.checks|
  {
    SumSame(s.threads, Apply(s, step).threads, Weight, Weight);
  }

  /** Only Add raises the work left, and every useful step lowers it. */
  lemma StepWork(s: State, step: Step)
    requires Enabled(s, step)
    ensures Work(Apply(s, step)) + (if Useful(s, step) then 1 else 0) <= Work(s) + 3 * Added(step)
  {
    match step
    case Add(_, _) => AddWork(s, step);
    case Run(t) => SumPut(s.threads, Weight, t, Apply(s, step).threads[t]);
    case Enter(t) => BeforeWork(s, step); TakeWork(BeforeTake(s, step), t);
    case Finish(t) => BeforeWork(s, step); TakeWork(BeforeTake(s, step), t);
    case Wake(t) => BeforeWork(s, step); TakeWork(BeforeTake(s, step), t);
  }

  ghost function UsefulSteps(s: State, steps: seq<Step>): nat
    requires ValidRun(s, steps)
    decreases |steps|
  {
    if steps == [] then 0
    else (if Useful(s, steps[0]) then 1 else 0) + UsefulSteps(Apply(s, steps[0]), steps[1..])
  }

  function AllAdded(steps: seq<Step>): nat {
    if steps == [] then 0 else Added(steps[0]) + AllAdded(steps[1..])
  }

  lemma {:induction false} RunWork(s: State, steps: seq<Step>)
    requires ValidRun(s, steps)
    ensures Work(After(s, steps)) + UsefulSteps(s, steps) <= Work(s) + 3 * AllAdded(steps)
    decreases |steps|
  {
    if steps != [] {
      StepWork(s, steps[0]);
      RunWork(Apply(s, steps[0]), steps[1..]);
    }
  }

  /** However many threads there are, no run has more than three useful steps for a check that was added. */
  lemma WorkBounded(batchSize: nat, steps: seq<Step>)
    requires ValidRun(Init(batchSize), steps)
    ensures UsefulSteps(Init(batchSize), steps) <= 3 * AllAdded(steps)
  {
    var s := Init(batchSize);
    var none: map<Tid, Phase> := map[];
    assert s.threads == none[MASTER := Outside];
    SumPut(none, Weight, MASTER, Outside);
    RunWork(s, steps);
    WorkNonNegative(After(s, steps));
  }

  predicate MasterInLoop(s: State) { MASTER in s.threads && !s.threads[MASTER].Outside? }

  ghost predicate Busy(s: State, t: Tid) { t in s.threads && s.threads[t].Executing? }

  /** As long as the master is in the loop a thread has a useful step to do, or the wake-up under way ends the wait. */
  lemma Progress(s: State)
    requires Inv(s) && MasterInLoop(s)
    ensures (exists t :: Busy(s, t)) || (s.threads[MASTER] == Waiting(true) && WaitResult(s, Wake(MASTER)).Some?)
  {
    if s.threads[MASTER].Executing? {
      assert Busy(s, MASTER);
    } else if s.todo > 0 {
      SomeLoaded(s.threads, Load);
      var t :| t in s.threads && Load(s.threads[t]) > 0;
      assert Busy(s, t);
    } else {
      SumNonNegative(s.threads);
    }
  }

  lemma TakeStays(s: State, t: Tid)
    requires t in s.threads && (t == MASTER || MasterInLoop(s)) && !Returns(s, t)
    ensures MasterInLoop(TryTake(s, t)) && TryTake(s, t).session == s.session
  {
    hide BatchOf, Reverse;
  }

  /** The master leaves the loop only by returning from Wait. */
  lemma StaysInLoop(s: State, step: Step)
    requires Enabled(s, step) && MasterInLoop(s) && WaitResult(s, step).None?
    ensures MasterInLoop(Apply(s, step)) && !step.Add? && Apply(s, step).session == s.session
  {
    if !step.Run? {
      var m := BeforeTake(s, step);
      assert step.t == MASTER || MasterInLoop(m);
      TakeStays(m, step.t);
      hide TryTake, BatchOf, Reverse;
    }
  }

  ghost predicate LeadsToReturn(s: State, steps: seq<Step>)
    decreases |steps|
  {
    && steps != [] && Enabled(s, steps[0])
    && (WaitResult(s, steps[0]).Some? || LeadsToReturn(Apply(s, steps[0]), steps[1..]))
  }

  /** From every state with the master in the loop, the threads that hold batches can end the wait by themselves. */
  lemma {:induction false} CanReturn(s: State)
    requires Inv(s) && MasterInLoop(s)
    ensures exists steps :: LeadsToReturn(s, steps) && |steps| <= Work(s) + 1
    decreases Work(s)
  {
    WorkNonNegative(s);
    Progress(s);
    if t :| Busy(s, t) {
      var step := if s.threads[t].left == [] then Finish(t) else Run(t);
      if WaitResult(s, step).Some? {
        assert LeadsToReturn(s, [step]);
      } else {
        StepKeeps(s, step);
        StepWork(s, step);
        StaysInLoop(s, step);
        CanReturn(Apply(s, step));
        var rest :| LeadsToReturn(Apply(s, step), rest) && |rest| <= Work(Apply(s, step)) + 1;
        assert ([step] + rest)[1..] == rest;
        assert LeadsToReturn(s, [step] + rest);
      }
    } else {
      assert LeadsToReturn(s, [Wake(MASTER)]);
    }
  }

  // Runs without an end

  datatype Execution = Execution(states: nat -> State, steps: nat -> Step)

  ghost predicate Follows(e: Execution, i: nat) {
    Enabled(e.states(i), e.steps(i)) && e.states(i + 1) == Apply(e.states(i), e.steps(i))
  }

  ghost predicate Moves(e: Execution, i: nat, t: Tid) { e.steps(i) == Run(t) || e.steps(i) == Finish(t) }

  ghost predicate Wakes(e: Execution, i: nat) { e.steps(i) == Wake(MASTER) }

  /** Every thread that holds a batch goes on in the end, and so does a master that has been notified. */
  ghost predicate Fair(e: Execution) {
    && (forall i: nat, t: Tid {:trigger Busy(e.states(i), t)} :: Busy(e.states(i), t) ==>
          exists j: nat :: i <= j && Moves(e, j, t))
    && (forall i: nat {:trigger e.states(i)} ::
          MASTER in e.states(i).threads && e.states(i).threads[MASTER] == Waiting(true) ==>
            exists j: nat :: i <= j && Wakes(e, j))
  }

  ghost predicate Execute(e: Execution) { Inv(e.states(0)) && forall i: nat :: Follows(e, i) }

  ghost predicate WaitReturns(e: Execution, i: nat) {
    Enabled(e.states(i), e.steps(i)) && WaitResult(e.states(i), e.steps(i)).Some?
  }

  /** Wait returns in this step, and says whether all of these checks pass. */
  ghost predicate Concludes(e: Execution, i: nat, session: seq<Check>) {
    WaitReturns(e, i) && (WaitResult(e.states(i), e.steps(i)).value <==> AllPass(session))
  }

  lemma {:induction false} AlwaysInv(e: Execution, i: nat)
    requires Execute(e)
    ensures Inv(e.states(i))
  {
    if i > 0 {
      AlwaysInv(e, i - 1);
      assert Follows(e, i - 1);
      StepKeeps(e.states(i - 1), e.steps(i - 1));
    }
  }

  /** Until Wait returns the master is in the loop and no work comes in. */
  lemma {:induction false} Until(e: Execution, i: nat, j: nat) returns (k: nat)
    requires Execute(e) && i <= j && MasterInLoop(e.states(i))
    ensures i <= k <= j && MasterInLoop(e.states(k)) && Work(e.states(k)) <= Work(e.states(i))
    ensures e.states(k).session == e.states(i).session && (k < j ==> WaitReturns(e, k))
    decreases j - i
  {
    k := i;
    if i < j && !WaitReturns(e, i) {
      assert Follows(e, i);
      StepWork(e.states(i), e.steps(i));
      StaysInLoop(e.states(i), e.steps(i));
      k := Until(e, i + 1, j);
    }
  }

  /** In every fair run Wait returns, and with the verdict on the checks that were added before it. */
  lemma {:induction false} SessionEnds(e: Execution, i: nat)
    requires Execute(e) && Fair(e) && MasterInLoop(e.states(i))
    ensures exists end: nat :: i <= end && Concludes(e, end, e.states(i).session)
    decreases Work(e.states(i))
  {
    AlwaysInv(e, i);
    Progress(e.states(i));
    if t :| Busy(e.states(i), t) {
      var j: nat :| i <= j && Moves(e, j, t);
      var k := Until(e, i, j);
      if WaitReturns(e, k) {
        Conclusion(e, i, k);
      } else {
        assert Follows(e, j);
        StepWork(e.states(j), e.steps(j));
        StaysInLoop(e.states(j), e.steps(j));
        WorkNonNegative(e.states(j));
        SessionEnds(e, j + 1);
      }
    } else {
      var j: nat :| i <= j && Wakes(e, j);
      var k := Until(e, i, j);
      EndsWithWork(e, i, k);
      Conclusion(e, i, k);
    }
  }

  lemma Conclusion(e: Execution, i: nat, k: nat)
    requires Execute(e) && WaitReturns(e, k) && e.states(k).session == e.states(i).session
    ensures Concludes(e, k, e.states(i).session)
  {
    AlwaysInv(e, k);
    VerdictOf(e.states(k), e.steps(k));
  }

  /** A master that wakes up when nothing is left returns. */
  lemma EndsWithWork(e: Execution, i: nat, k: nat)
    requires Execute(e) && e.states(i).todo == 0 && Work(e.states(k)) <= Work(e.states(i))
    requires Wakes(e, k) || WaitReturns(e, k)
    ensures WaitReturns(e, k)
  {
    assert Follows(e, k);
    AlwaysInv(e, i);
    AlwaysInv(e, k);
    NoWorkLeft(e.states(i));
    WorkNonNegative(e.states(k));
    NoWorkLeft(e.states(k));
    NobodyExecutes(e.states(k));
  }
}
