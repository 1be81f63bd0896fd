/**
 * The parallel check queue (src/checkqueue.h) as a state machine. A step is one critical section
 * under the mutex, one check evaluated outside it, or a thread woken from a condition variable,
 * spurious wake-ups included. There is one master and any number of workers; Quit and the
 * shutdown flag are left out.
 */
module CheckQueue {
  import opened Common
  import opened Arith

  type Tid = int
  const MASTER: Tid := 0

  /** `passes` is what evaluating the check returns. */
  datatype Check = Check(id: int, passes: bool)

  /** Where a thread stands. `taken` is nNow, `left` the part of the batch still to be run. */
  datatype Phase =
    | Outside
    | Waiting(notified: bool)
    | Executing(left: seq<Check>, taken: nat, ok: bool)

  /** `session` lists the checks added since the last Wait returned; the node does not store it. */
  datatype State = State(queue: seq<Check>, idle: int, total: int, allOk: bool, todo: int, batchSize: nat,
                         threads: map<Tid, Phase>, session: seq<Check>)

  function Init(batchSize: nat): State {
    State([], 0, 0, true, 0, batchSize, map[MASTER := Outside], [])
  }

  // Steps

  datatype Step =
    | Add(checks: seq<Check>, woken: Option<Tid>)
    | Enter(t: Tid)
    | Run(t: Tid)
    | Finish(t: Tid)
    | Wake(t: Tid)

  function Reverse(s: seq<Check>): (r: seq<Check>)
    ensures |r| == |s|
    ensures forall i :: 0 <= i < |s| ==> r[i] == s[|s| - 1 - i]
  {
    seq(|s|, i requires 0 <= i < |s| => s[|s| - 1 - i])
  }

  /** How many checks a thread takes: smaller batches near the end, between one and the batch size. */
  function BatchOf(s: State): (n: int)
    requires s.queue != []
    ensures 1 <= n <= |s.queue|
  {
    var helpers := s.total + s.idle + 1;
    if helpers > 0 then
      MulMono(1, helpers, |s.queue| + 1);
      DivUpper(|s.queue|, helpers, |s.queue| + 1);
      Max(1, Min(s.batchSize, |s.queue| / helpers))
    else 1
  }

  /** The queue shared out among the threads in the loop, the idle ones twice, and one more; at least one check. */
  lemma BatchShare(s: State)
    requires s.queue != [] && s.total >= 0 && s.idle >= 0
    ensures var n, helpers := BatchOf(s), s.total + s.idle + 1;
            && (n > 1 ==> n <= s.batchSize && n * helpers <= |s.queue|)
            && (n < s.batchSize ==> (n + 1) * helpers > |s.queue|)
  {
    var helpers, n := s.total + s.idle + 1, BatchOf(s);
    ShareBounds(|s.queue|, helpers, n);
  }

  lemma ShareBounds(size: nat, helpers: nat, n: nat)
    requires helpers > 0
    ensures n <= size / helpers ==> n * helpers <= size
    ensures n >= size / helpers ==> (n + 1) * helpers > size
  {
    var q := size / helpers;
    DivBounds(size, helpers);
    if n <= q { MulMono(n, q, helpers); }
    if n >= q { MulMono(q + 1, n + 1, helpers); }
  }

  predicate Returns(s: State, t: Tid) { s.queue == [] && t == MASTER && s.todo == 0 }

  /** The rest of a critical section from the inner loop on: return, wait, or take a batch. */
  function TryTake(s: State, t: Tid): State {
    if Returns(s, t) then
      s.(total := s.total - 1, allOk := true, session := [], threads := s.threads[t := Outside])
    else if s.queue == [] then
      s.(idle := s.idle + 1, threads := s.threads[t := Waiting(false)])
    else
      var rest := |s.queue| - BatchOf(s);
      s.(queue := s.queue[..rest],
         threads := s.threads[t := Executing(Reverse(s.queue[rest..]), BatchOf(s), s.allOk)])
  }

  function NotifyAll(threads: map<Tid, Phase>): (r: map<Tid, Phase>)
    ensures r.Keys == threads.Keys
    ensures forall t :: t in r ==>
              r[t] == if t != MASTER && threads[t].Waiting? then Waiting(true) else threads[t]
  {
    map t | t in threads :: if t != MASTER && threads[t].Waiting? then Waiting(true) else threads[t]
  }

  function NotifyMaster(s: State): State {
    if MASTER in s.threads && s.threads[MASTER].Waiting? then s.(threads := s.threads[MASTER := Waiting(true)]) else s
  }

  predicate Enabled(s: State, step: Step) {
    match step
    case Add(checks, woken) =>
      && MASTER in s.threads && s.threads[MASTER].Outside?
      && (woken.Some? ==> woken.value in s.threads && woken.value != MASTER && s.threads[woken.value].Waiting?)
    case Enter(t) => t !in s.threads || s.threads[t].Outside?
    case Run(t) => t in s.threads && s.threads[t].Executing? && s.threads[t].left != []
    case Finish(t) => t in s.threads && s.threads[t].Executing? && s.threads[t].left == []
    case Wake(t) => t in s.threads && s.threads[t].Waiting?
  }

  /** The state in which the inner loop of the step's critical section starts. */
  function BeforeTake(s: State, step: Step): State
    requires Enabled(s, step) && !step.Add? && !step.Run?
  {
    match step
    case Enter(t) => s.(total := s.total + 1, threads := s.threads[t := Outside])
    case Finish(t) =>
      var p := s.threads[t];
      var s1 := s.(allOk := s.allOk && p.ok, todo := s.todo - p.taken, threads := s.threads[t := Outside]);
      if s1.todo == 0 && t != MASTER then NotifyMaster(s1) else s1
    case Wake(t) => s.(idle := s.idle - 1, threads := s.threads[t := Outside])
  }

  function Apply(s: State, step: Step): State
    requires Enabled(s, step)
  {
    match step
    case Add(checks, woken) =>
      var s1 := s.(queue := s.queue + checks, todo := s.todo + |checks|, session := s.session + checks);
      if |checks| == 1 && woken.Some? then s1.(threads := s.threads[woken.value := Waiting(true)])
      else if |checks| > 1 then s1.(threads := NotifyAll(s.threads))
      else s1
    case Run(t) =>
      var p := s.threads[t];
      s.(threads := s.threads[t := p.(left := p.left[1..], ok := p.ok && p.left[0].passes)])
    case Enter(t) => TryTake(BeforeTake(s, step), t)
    case Finish(t) => TryTake(BeforeTake(s, step), t)
    case Wake(t) => TryTake(BeforeTake(s, step), t)
  }

  /** What Wait returns, when this step makes it return. */
  function WaitResult(s: State, step: Step): Option<bool>
    requires Enabled(s, step)
  {
    if step.Add? || step.Run? then None
    else if Returns(BeforeTake(s, step), step.t) then Some(BeforeTake(s, step).allOk)
    else None
  }

  // Sums over all threads

  ghost function Sum(m: map<Tid, Phase>, f: Phase -> int): int {
    if m.Keys == {} then 0
    else
      var t := Any(m.Keys);
      f(m[t]) + Sum(m - {t}, f)
  }

  lemma {:induction false} SumRemove(m: map<Tid, Phase>, f: Phase -> int, t: Tid)
    requires t in m
    ensures Sum(m, f) == f(m[t]) + Sum(m - {t}, f)
    decreases |m|
  {
    var k := Any(m.Keys);
    if k != t {
      SumRemove(m - {k}, f, t);
      SumRemove(m - {t}, f, k);
      assert m - {k} - {t} == m - {t} - {k};
    }
  }

  lemma SumPut(m: map<Tid, Phase>, f: Phase -> int, t: Tid, p: Phase)
    ensures Sum(m[t := p], f) == Sum(m, f) - (if t in m then f(m[t]) else 0) + f(p)
  {
    SumRemove(m[t := p], f, t);
    assert m[t := p] - {t} == m - {t};
    if t in m { SumRemove(m, f, t); } else { assert m - {t} == m; }
  }

  lemma {:induction false} SumSame(m: map<Tid, Phase>, n: map<Tid, Phase>, f: Phase -> int, g: Phase -> int)
    requires m.Keys == n.Keys && forall t :: t in m ==> f(m[t]) == g(n[t])
    ensures Sum(m, f) == Sum(n, g)
    decreases |m|
  {
    if m.Keys != {} {
      var t := Any(m.Keys);
      SumSame(m - {t}, n - {t}, f, g);
    }
  }

  lemma {:induction false} SumAtLeast(m: map<Tid, Phase>, f: Phase -> int, t: Tid)
    requires t in m && forall k :: k in m ==> f(m[k]) >= 0
    ensures Sum(m, f) >= f(m[t]) >= 0
    decreases |m|
  {
    SumRemove(m, f, t);
    if k :| k in m && k != t { SumAtLeast(m - {t}, f, k); } else { assert (m - {t}).Keys == {}; }
  }

  lemma {:induction false} SomeLoaded(m: map<Tid, Phase>, f: Phase -> int)
    requires Sum(m, f) > 0
    ensures exists t :: t in m && f(m[t]) > 0
    decreases |m|
  {
    if m.Keys != {} {
      var t := Any(m.Keys);
      if f(m[t]) <= 0 { SomeLoaded(m - {t}, f); }
    }
  }

  function Load(p: Phase): int { if p.Executing? then p.taken else 0 }
  function Idle(p: Phase): int { if p.Waiting? then 1 else 0 }
  function InLoop(p: Phase): int { if p.Outside? then 0 else 1 }

  // The invariant

  predicate AllPass(s: seq<Check>) { forall i :: 0 <= i < |s| ==> s[i].passes }

  /** No check seen so far has failed and none still queued or being run will. */
  predicate Clean(s: State) {
    && s.allOk
    && AllPass(s.queue)
    && (forall t :: t in s.threads && s.threads[t].Executing? ==> s.threads[t].ok && AllPass(s.threads[t].left))
  }

  ghost predicate Counted(s: State) {
    && s.todo == |s.queue| + Sum(s.threads, Load)
    && s.idle == Sum(s.threads, Idle)
    && s.total == Sum(s.threads, InLoop)
  }

  predicate Shape(s: State) {
    && MASTER in s.threads
    && (forall t :: t in s.threads && s.threads[t].Executing? ==> s.threads[t].taken >= 1)
    && s.todo <= |s.session|
    && (AllPass(s.session) <==> Clean(s))
  }

  /** A waiting master has been notified, or there is work under way that will notify it. */
  predicate MasterWakes(s: State) {
    MASTER in s.threads && s.threads[MASTER].Waiting? ==> s.queue == [] && (s.threads[MASTER].notified || s.todo > 0)
  }

  ghost predicate Inv(s: State) { Counted(s) && Shape(s) && MasterWakes(s) }

  /** The invariant inside a critical section: the running thread is counted but shown as outside. */
  ghost predicate Mid(s: State, t: Tid) {
    && t in s.threads && s.threads[t] == Outside
    && s.todo == |s.queue| + Sum(s.threads, Load)
    && s.idle == Sum(s.threads, Idle)
    && s.total == Sum(s.threads, InLoop) + 1
    && Shape(s)
    && (t != MASTER ==> MasterWakes(s))
  }

  /** Threads that hold no batch do not matter to the verdict. */
  lemma CleanSame(s: State, s': State)
    requires s'.allOk == s.allOk && s'.queue == s.queue
    requires forall t :: t in s.threads && s.threads[t].Executing? ==> t in s'.threads && s'.threads[t] == s.threads[t]
    requires forall t :: t in s'.threads && s'.threads[t].Executing? ==> t in s.threads && s.threads[t] == s'.threads[t]
    ensures Clean(s') <==> Clean(s)
  {
    if Clean(s) {
      forall t | t in s'.threads && s'.threads[t].Executing? ensures s'.threads[t].ok && AllPass(s'.threads[t].left) {
        assert s.threads[t] == s'.threads[t];
      }
    }
    if Clean(s') {
      forall t | t in s.threads && s.threads[t].Executing? ensures s.threads[t].ok && AllPass(s.threads[t].left) {
        assert s'.threads[t] == s.threads[t];
      }
    }
  }

  lemma SumsPut(m: map<Tid, Phase>, t: Tid, p: Phase)
    ensures Sum(m[t := p], Load) == Sum(m, Load) - (if t in m then Load(m[t]) else 0) + Load(p)
    ensures Sum(m[t := p], Idle) == Sum(m, Idle) - (if t in m then Idle(m[t]) else 0) + Idle(p)
    ensures Sum(m[t := p], InLoop) == Sum(m, InLoop) - (if t in m then InLoop(m[t]) else 0) + InLoop(p)
  {
    SumPut(m, Load, t, p);
    SumPut(m, Idle, t, p);
    SumPut(m, InLoop, t, p);
  }

  /** Nothing to do means that no thread holds a batch. */
  lemma NobodyExecutes(s: State)
    requires Shape(s) && s.todo == |s.queue| + Sum(s.threads, Load) && s.todo == 0
    ensures s.queue == [] && forall t :: t in s.threads ==> !s.threads[t].Executing?
  {
    SumNonNegative(s.threads);
    forall t | t in s.threads ensures !s.threads[t].Executing? {
      SumAtLeast(s.threads, Load, t);
    }
  }

  lemma SumNonNegative(m: map<Tid, Phase>)
    ensures Sum(m, Load) >= 0
  {
    if m.Keys != {} { SumAtLeast(m, Load, Any(m.Keys)); }
  }

  lemma TakeKeeps(s: State, t: Tid)
    requires Mid(s, t)
    ensures Inv(TryTake(s, t))
  {
    var s' := TryTake(s, t);
    SumsPut(s.threads, t, s'.threads[t]);
    if Returns(s, t) {
      NobodyExecutes(s);
    } else if s.queue != [] {
      var rest := |s.queue| - BatchOf(s);
      TakeKeepsClean(s, t, rest);
    } else {
      SumNonNegative(s.threads);
      CleanSame(s, s');
    }
  }

  lemma TakeKeepsClean(s: State, t: Tid, rest: nat)
    requires t in s.threads && s.threads[t] == Outside && rest <= |s.queue|
    ensures var left := Reverse(s.queue[rest..]);
            var s' := s.(queue := s.queue[..rest], threads := s.threads[t := Executing(left, |left|, s.allOk)]);
            Clean(s') <==> Clean(s)
  {
    var left := Reverse(s.queue[rest..]);
    var s' := s.(queue := s.queue[..rest], threads := s.threads[t := Executing(left, |left|, s.allOk)]);
    assert AllPass(s.queue) <==> AllPass(s.queue[..rest]) && AllPass(left) by {
      if AllPass(s.queue[..rest]) && AllPass(left) {
        forall i | 0 <= i < |s.queue| ensures s.queue[i].passes {
          if i < rest { assert s.queue[..rest][i].passes; } else { assert left[|s.queue| - 1 - i].passes; }
        }
      }
    }
    if Clean(s) {
      assert forall k :: k in s'.threads && s'.threads[k].Executing? && k != t ==> s.threads[k].ok;
    }
    if Clean(s') {
      assert s'.threads[t].ok && AllPass(s'.threads[t].left);
      assert forall k :: k in s.threads && s.threads[k].Executing? ==> s'.threads[k] == s.threads[k];
    }
  }

  lemma EnterMid(s: State, t: Tid)
    requires Inv(s) && Enabled(s, Enter(t))
    ensures Mid(BeforeTake(s, Enter(t)), t)
  {
    var s' := BeforeTake(s, Enter(t));
    SumsPut(s.threads, t, Outside);
    CleanSame(s, s');
  }

  lemma WakeMid(s: State, t: Tid)
    requires Inv(s) && Enabled(s, Wake(t))
    ensures Mid(BeforeTake(s, Wake(t)), t)
  {
    var s' := BeforeTake(s, Wake(t));
    SumsPut(s.threads, t, Outside);
    CleanSame(s, s');
  }

  lemma FinishMid(s: State, t: Tid)
    requires Inv(s) && Enabled(s, Finish(t))
    ensures Mid(BeforeTake(s, Finish(t)), t)
  {
    var p := s.threads[t];
    var s1 := s.(allOk := s.allOk && p.ok, todo := s.todo - p.taken, threads := s.threads[t := Outside]);
    SumsPut(s.threads, t, Outside);
    SumNonNegative(s1.threads);
    assert Clean(s1) <==> Clean(s) by {
      if Clean(s1) {
        forall k | k in s.threads && s.threads[k].Executing? ensures s.threads[k].ok && AllPass(s.threads[k].left) {
          if k != t { assert s1.threads[k] == s.threads[k]; }
        }
      }
    }
    if s1.todo == 0 && t != MASTER && s1.threads[MASTER].Waiting? {
      SumsPut(s1.threads, MASTER, Waiting(true));
      var s2 := NotifyMaster(s1);
      CleanSame(s1, s2);
    }
  }

  lemma RunKeeps(s: State, t: Tid)
    requires Inv(s) && Enabled(s, Run(t))
    ensures Inv(Apply(s, Run(t)))
  {
    var p := s.threads[t];
    var s' := Apply(s, Run(t));
    SumsPut(s.threads, t, s'.threads[t]);
    assert p.ok && AllPass(p.left) <==> s'.threads[t].ok && AllPass(s'.threads[t].left) by {
      assert forall i :: 1 <= i < |p.left| ==> p.left[i] == p.left[1..][i - 1];
    }
    assert Clean(s') <==> Clean(s) by {
      assert forall k :: k in s.threads && k != t ==> s'.threads[k] == s.threads[k];
    }
  }

  lemma AddKeeps(s: State, checks: seq<Check>, woken: Option<Tid>)
    requires Inv(s) && Enabled(s, Add(checks, woken))
    ensures Inv(Apply(s, Add(checks, woken)))
  {
    var s' := Apply(s, Add(checks, woken));
    if |checks| == 1 && woken.Some? {
      SumsPut(s.threads, woken.value, Waiting(true));
    } else if |checks| > 1 {
      SumSame(s.threads, s'.threads, Load, Load);
      SumSame(s.threads, s'.threads, Idle, Idle);
      SumSame(s.threads, s'.threads, InLoop, InLoop);
    }
    AllPassAppend(s.queue, checks);
    AllPassAppend(s.session, checks);
    assert forall t :: t in s.threads ==>
           (s.threads[t].Executing? || s'.threads[t].Executing? ==> s'.threads[t] == s.threads[t]);
    assert Clean(s') <==> Clean(s) && AllPass(checks);
  }

  lemma AllPassAppend(a: seq<Check>, b: seq<Check>)
    ensures AllPass(a + b) <==> AllPass(a) && AllPass(b)
  {
    if AllPass(a + b) {
      assert forall i :: 0 <= i < |a| ==> a[i] == (a + b)[i];
      assert forall i :: 0 <= i < |b| ==> b[i] == (a + b)[|a| + i];
    }
  }

  lemma StepKeeps(s: State, step: Step)
    requires Inv(s) && Enabled(s, step)
    ensures Inv(Apply(s, step))
  {
    match step
    case Add(checks, woken) => AddKeeps(s, checks, woken);
    case Run(t) => RunKeeps(s, t);
    case Enter(t) => EnterMid(s, t); TakeKeeps(BeforeTake(s, step), t);
    case Finish(t) => FinishMid(s, t); TakeKeeps(BeforeTake(s, step), t);
    case Wake(t) => WakeMid(s, t); TakeKeeps(BeforeTake(s, step), t);
  }

  // Runs

  ghost predicate ValidRun(s: State, steps: seq<Step>)
    decreases |steps|
  {
    steps == [] || (Enabled(s, steps[0]) && ValidRun(Apply(s, steps[0]), steps[1..]))
  }

  ghost function After(s: State, steps: seq<Step>): State
    requires ValidRun(s, steps)
    decreases |steps|
  {
    if steps == [] then s else After(Apply(s, steps[0]), steps[1..])
  }

  lemma {:induction false} RunKeepsInv(s: State, steps: seq<Step>)
    requires Inv(s) && ValidRun(s, steps)
    ensures Inv(After(s, steps))
    decreases |steps|
  {
    if steps != [] {
      StepKeeps(s, steps[0]);
      RunKeepsInv(Apply(s, steps[0]), steps[1..]);
    }
  }

  lemma InitInv(batchSize: nat)
    ensures Inv(Init(batchSize))
  {
    var s := Init(batchSize);
    var none: map<Tid, Phase> := map[];
    assert s.threads == none[MASTER := Outside];
    SumsPut(none, MASTER, Outside);
  }

  /** In every reachable state the counters say what they are meant to count. */
  lemma CountersExact(batchSize: nat, steps: seq<Step>)
    requires ValidRun(Init(batchSize), steps)
    ensures var s := After(Init(batchSize), steps);
            && s.todo == |s.queue| + Sum(s.threads, Load)
            && s.idle == Sum(s.threads, Idle)
            && s.total == Sum(s.threads, InLoop)
  {
    InitInv(batchSize);
    RunKeepsInv(Init(batchSize), steps);
  }

  lemma VerdictOf(s: State, last: Step)
    requires Inv(s) && Enabled(s, last) && WaitResult(s, last).Some?
    ensures WaitResult(s, last).value <==> AllPass(s.session)
  {
    match last
    case Enter(t) => EnterMid(s, t); NobodyExecutes(BeforeTake(s, last));
    case Finish(t) => FinishMid(s, t); NobodyExecutes(BeforeTake(s, last));
    case Wake(t) => WakeMid(s, t); NobodyExecutes(BeforeTake(s, last));
  }

  /** Wait returns true exactly when every check added in the session passes. */
  lemma WaitIsVerdict(batchSize: nat, steps: seq<Step>, last: Step)
    requires ValidRun(Init(batchSize), steps) && Enabled(After(Init(batchSize), steps), last)
    requires WaitResult(After(Init(batchSize), steps), last).Some?
    ensures var s := After(Init(batchSize), steps);
            WaitResult(s, last).value <==> AllPass(s.session)
  {
    InitInv(batchSize);
    RunKeepsInv(Init(batchSize), steps);
    VerdictOf(After(Init(batchSize), steps), last);
  }

  /** No wake-up is lost: a master that waits without a pending notify has a worker executing for it. */
  lemma MasterNeverStuck(batchSize: nat, steps: seq<Step>)
    requires ValidRun(Init(batchSize), steps)
    requires var s := After(Init(batchSize), steps);
             MASTER in s.threads && s.threads[MASTER] == Waiting(false)
    ensures var s := After(Init(batchSize), steps);
            exists t :: t in s.threads && t != MASTER && s.threads[t].Executing?
  {
    InitInv(batchSize);
    RunKeepsInv(Init(batchSize), steps);
    SomeLoaded(After(Init(batchSize), steps).threads, Load);
  }

  /** IsIdle holds whenever a new session may start, so the assertion of CCheckQueueControl does. */
  lemma IdleBetweenSessions(batchSize: nat, steps: seq<Step>)
    requires ValidRun(Init(batchSize), steps)
    requires var s := After(Init(batchSize), steps);
             s.session == [] && MASTER in s.threads && s.threads[MASTER].Outside?
    ensures var s := After(Init(batchSize), steps);
            s.total == s.idle && s.todo == 0 && s.allOk
  {
    InitInv(batchSize);
    RunKeepsInv(Init(batchSize), steps);
    var s := After(Init(batchSize), steps);
    SumNonNegative(s.threads);
    NobodyExecutes(s);
    SumSame(s.threads, s.threads, Idle, InLoop);
  }
}
