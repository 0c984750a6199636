/**
 * The concurrency limiter (src/core/async.ts, `AsyncQueue.run`), as the atomic stretches between
 * its awaits. A call either starts or queues; a finished task wakes the first waiter; a woken
 * waiter tests the limit again when it resumes, and a caller who came in between may have taken
 * the place, in which case the waiter queues again at the end.
 */
module AsyncQueue {
  import opened Prelude

  type TaskId = nat

  datatype State = State(running: int, queue: seq<TaskId>, woken: multiset<TaskId>, active: multiset<TaskId>,
                         done: multiset<TaskId>)

  datatype Step = Call(t: TaskId) | Finish(t: TaskId) | Resume(t: TaskId)

  const IDLE := State(0, [], multiset{}, multiset{}, multiset{})

  /** Where every called task is: queued, woken but not yet resumed, running, or finished. */
  function Places(s: State): multiset<TaskId> {
    multiset(s.queue) + s.woken + s.active + s.done
  }

  predicate Enabled(s: State, step: Step) {
    match step
    case Call(t) => t !in Places(s)
    case Finish(t) => t in s.active
    case Resume(t) => t in s.woken
  }

  /** The loop head: test the limit, then queue or start. */
  function Enter(limit: int, s: State, t: TaskId): State {
    if s.running >= limit then s.(queue := s.queue + [t])
    else s.(running := s.running + 1, active := s.active + multiset{t})
  }

  /** The finally block: give the place back and wake the first waiter. */
  function Leave(s: State, t: TaskId): State {
    var left := s.(running := s.running - 1, active := s.active - multiset{t}, done := s.done + multiset{t});
    if s.queue == [] then left
    else left.(queue := s.queue[1..], woken := s.woken + multiset{s.queue[0]})
  }

  function Next(limit: int, s: State, step: Step): State {
    match step
    case Call(t) => Enter(limit, s, t)
    case Finish(t) => Leave(s, t)
    case Resume(t) => Enter(limit, s.(woken := s.woken - multiset{t}), t)
  }

  /** A run performs enabled steps one after another. */
  predicate IsRun(limit: int, s: State, steps: seq<Step>)
    decreases |steps|
  {
    steps == [] || (Enabled(s, steps[0]) && IsRun(limit, Next(limit, s, steps[0]), steps[1..]))
  }

  function After(limit: int, s: State, steps: seq<Step>): State
    decreases |steps|
  {
    if steps == [] then s else After(limit, Next(limit, s, steps[0]), steps[1..])
  }

  // ----- The invariant -----

  /** No task is in two places. */
  ghost predicate Unique(s: State) {
    forall t :: Places(s)[t] <= 1
  }

  /** The counter is honest and within the limit, and waiters only wait while enough places are taken or spoken for. */
  ghost predicate Counts(limit: int, s: State) {
    && s.running == |s.active|
    && s.running <= Max(0, limit)
    && (s.queue != [] ==> s.running + |s.woken| >= limit)
  }

  ghost predicate Inv(limit: int, s: State) {
    Unique(s) && Counts(limit, s)
  }

  lemma HeadLeavesQueue(q: seq<TaskId>)
    requires q != []
    ensures multiset(q) == multiset(q[1..]) + multiset{q[0]}
  {
    assert q == [q[0]] + q[1..];
  }

  lemma TakeOne(m: multiset<TaskId>, t: TaskId)
    requires t in m
    ensures m == (m - multiset{t}) + multiset{t}
    ensures |m - multiset{t}| == |m| - 1
  {
    assert |m| == |(m - multiset{t}) + multiset{t}|;
  }

  /** Moving one element between parts keeps the whole. */
  lemma MoveOne(rest: multiset<TaskId>, m: multiset<TaskId>, n: multiset<TaskId>, t: TaskId)
    requires t in m
    ensures rest + (m - multiset{t}) + (n + multiset{t}) == rest + m + n
  {
    TakeOne(m, t);
  }

  lemma FinishMoves(s: State, t: TaskId)
    requires t in s.active
    ensures Places(Leave(s, t)) == Places(s)
  {
    var q, w := multiset(s.queue), s.woken;
    MoveOne(q + w, s.active, s.done, t);
    if s.queue != [] {
      HeadLeavesQueue(s.queue);
      var q', h := multiset(s.queue[1..]), multiset{s.queue[0]};
      assert q' + (w + h) == (q' + h) + w == q + w;
    }
  }

  lemma ResumeMoves(limit: int, s: State, t: TaskId)
    requires t in s.woken
    ensures Places(Enter(limit, s.(woken := s.woken - multiset{t}), t)) == Places(s)
  {
    TakeOne(s.woken, t);
    EnterAdds(limit, s.(woken := s.woken - multiset{t}), t);
  }

  lemma EnterAdds(limit: int, s: State, t: TaskId)
    ensures Places(Enter(limit, s, t)) == Places(s) + multiset{t}
  {
  }

  /** A step moves one task, and only a call adds one. */
  lemma StepMovesOne(limit: int, s: State, step: Step)
    requires Enabled(s, step)
    ensures Places(Next(limit, s, step)) == if step.Call? then Places(s) + multiset{step.t} else Places(s)
  {
    hide Places;
    match step
    case Call(t) => EnterAdds(limit, s, t);
    case Finish(t) => FinishMoves(s, t);
    case Resume(t) => ResumeMoves(limit, s, t);
  }

  lemma StepKeepsCounts(limit: int, s: State, step: Step)
    requires Counts(limit, s) && Enabled(s, step)
    ensures Counts(limit, Next(limit, s, step))
  {
    hide Places;
    match step
    case Call(t) =>
    case Finish(t) => TakeOne(s.active, t);
    case Resume(t) => TakeOne(s.woken, t);
  }

  lemma StepKeepsInv(limit: int, s: State, step: Step)
    requires Inv(limit, s) && Enabled(s, step)
    ensures Inv(limit, Next(limit, s, step))
  {
    hide Places, Counts, Next;
    StepMovesOne(limit, s, step);
    StepKeepsCounts(limit, s, step);
  }

  /** Over any interleaving: the limit is never exceeded, no task is lost or duplicated, and no wake-up is lost. */
  lemma {:induction false} RunsKeepInv(limit: int, s: State, steps: seq<Step>)
    requires Inv(limit, s) && IsRun(limit, s, steps)
    ensures Inv(limit, After(limit, s, steps))
    ensures Places(After(limit, s, steps)) == Places(s) + CallsIn(steps)
    decreases |steps|
  {
    if steps != [] {
      StepKeepsInv(limit, s, steps[0]);
      StepMovesOne(limit, s, steps[0]);
      RunsKeepInv(limit, Next(limit, s, steps[0]), steps[1..]);
    }
  }

  /** The tasks a run calls. */
  function CallsIn(steps: seq<Step>): multiset<TaskId> {
    if steps == [] then multiset{}
    else (if steps[0].Call? then multiset{steps[0].t} else multiset{}) + CallsIn(steps[1..])
  }

  // ----- Stalls -----

  /** Tasks wait, and nothing that could let them go is left. */
  predicate Stalled(s: State) {
    s.queue != [] && s.active == multiset{} && s.woken == multiset{}
  }

  ghost predicate Reachable(limit: int, s: State) {
    exists steps :: IsRun(limit, IDLE, steps) && s == After(limit, IDLE, steps)
  }

  /** Some run stalls exactly when the limit admits nobody at all. */
  lemma StallsIffNoLimit(limit: int)
    ensures (exists s :: Reachable(limit, s) && Stalled(s)) <==> limit <= 0
  {
    if limit <= 0 {
      var steps := [Call(0)];
      assert steps[1..] == [];
      assert IsRun(limit, IDLE, steps);
      assert After(limit, IDLE, steps) == State(0, [0], multiset{}, multiset{}, multiset{});
      assert Reachable(limit, After(limit, IDLE, steps));
    } else {
      forall s | Reachable(limit, s) ensures !Stalled(s) {
        var steps :| IsRun(limit, IDLE, steps) && s == After(limit, IDLE, steps);
        RunsKeepInv(limit, IDLE, steps);
      }
    }
  }

  // ----- Progress -----

  /** What is left to do: each unfinished task still has to finish and may wake one waiter. */
  function Work(s: State): nat {
    2 * (|s.queue| + |s.woken| + |s.active|) + |s.woken|
  }

  lemma StepDoesWork(limit: int, s: State, step: Step)
    requires Enabled(s, step) && !step.Call?
    ensures Work(Next(limit, s, step)) < Work(s)
  {
    match step
    case Finish(t) => TakeOne(s.active, t);
    case Resume(t) => TakeOne(s.woken, t);
  }

  /** Once calls stop coming, runs are bounded by the work left, despite waiters queueing again. */
  lemma {:induction false} CallFreeRunsEnd(limit: int, s: State, steps: seq<Step>)
    requires IsRun(limit, s, steps) && forall step :: step in steps ==> !step.Call?
    ensures |steps| + Work(After(limit, s, steps)) <= Work(s)
    ensures CallsIn(steps) == multiset{}
    decreases |steps|
  {
    if steps != [] {
      StepDoesWork(limit, s, steps[0]);
      CallFreeRunsEnd(limit, Next(limit, s, steps[0]), steps[1..]);
    }
  }

  /** Nothing runs and nothing is about to resume. */
  predicate Quiet(s: State) {
    s.active == multiset{} && s.woken == multiset{}
  }

  lemma QuietIffNothingEnabled(s: State)
    ensures Quiet(s) <==> forall step :: Enabled(s, step) ==> step.Call?
  {
    if !Quiet(s) {
      if t :| t in s.active {
        assert Enabled(s, Finish(t));
      } else {
        var t :| t in s.woken;
        assert Enabled(s, Resume(t));
      }
    }
  }

  /** A quiet state without a stall holds nothing but finished tasks. */
  lemma QuietHoldsDone(limit: int, s: State)
    requires limit >= 1 && Inv(limit, s) && Quiet(s)
    ensures s.queue == [] && Places(s) == s.done
  {
    assert multiset(s.queue) == multiset{};
  }

  /** A call-free run that can go no further has finished every task called before, each once. */
  lemma QuietMeansDone(limit: int, s: State, steps: seq<Step>)
    requires limit >= 1 && Inv(limit, s) && IsRun(limit, s, steps) && forall step :: step in steps ==> !step.Call?
    requires Quiet(After(limit, s, steps))
    ensures After(limit, s, steps).done == Places(s) && After(limit, s, steps).queue == []
  {
    hide Places;
    RunsKeepInv(limit, s, steps);
    CallFreeRunsEnd(limit, s, steps);
    QuietHoldsDone(limit, After(limit, s, steps));
  }

  /** Waiters are not served in order: a caller can barge past a woken waiter, who then falls behind later arrivals. */
  lemma BargingReorders()
    ensures var steps := [Call(1), Call(2), Call(3), Finish(1), Call(4), Resume(2)];
            IsRun(1, IDLE, steps) && After(1, IDLE, steps) == State(1, [3, 2], multiset{}, multiset{4}, multiset{1})
  {
    var s0 := IDLE;
    var s1 := Next(1, s0, Call(1));
    assert s1 == State(1, [], multiset{}, multiset{1}, multiset{});
    var s2 := Next(1, s1, Call(2));
    assert s2 == State(1, [2], multiset{}, multiset{1}, multiset{});
    var s3 := Next(1, s2, Call(3));
    assert s3 == State(1, [2, 3], multiset{}, multiset{1}, multiset{});
    var s4 := Next(1, s3, Finish(1));
    assert s4 == State(0, [3], multiset{2}, multiset{}, multiset{1});
    var s5 := Next(1, s4, Call(4));
    assert s5 == State(1, [3], multiset{2}, multiset{4}, multiset{1});
    var s6 := Next(1, s5, Resume(2));
    assert s6 == State(1, [3, 2], multiset{}, multiset{4}, multiset{1});
    RunCons(1, s5, Resume(2), []);
    RunCons(1, s4, Call(4), [Resume(2)]);
    RunCons(1, s3, Finish(1), [Call(4), Resume(2)]);
    RunCons(1, s2, Call(3), [Finish(1), Call(4), Resume(2)]);
    RunCons(1, s1, Call(2), [Call(3), Finish(1), Call(4), Resume(2)]);
    RunCons(1, s0, Call(1), [Call(2), Call(3), Finish(1), Call(4), Resume(2)]);
  }

  lemma RunCons(limit: int, s: State, step: Step, rest: seq<Step>)
    ensures IsRun(limit, s, [step] + rest) <==> Enabled(s, step) && IsRun(limit, Next(limit, s, step), rest)
    ensures After(limit, s, [step] + rest) == After(limit, Next(limit, s, step), rest)
  {
    assert ([step] + rest)[1..] == rest;
  }

  // ----- Call order -----

  /** A run with its bookkeeping: the woken tasks in wake order, and the tasks called and started so far, in order. */
  datatype Trace = Trace(s: State, waking: seq<TaskId>, calls: seq<TaskId>, starts: seq<TaskId>)

  function Track(limit: int, r: Trace, step: Step): Trace {
    var next := Next(limit, r.s, step);
    var started := if r.s.running < limit then r.starts + [step.t] else r.starts;
    match step
    case Call(t) => Trace(next, r.waking, r.calls + [t], started)
    case Finish(_) => Trace(next, if r.s.queue == [] then r.waking else r.waking + [r.s.queue[0]], r.calls, r.starts)
    case Resume(_) => Trace(next, if r.waking == [] then [] else r.waking[1..], r.calls, started)
  }

  function TrackAll(limit: int, r: Trace, steps: seq<Step>): Trace
    decreases |steps|
  {
    if steps == [] then r else TrackAll(limit, Track(limit, r, steps[0]), steps[1..])
  }

  const UNTOUCHED := Trace(IDLE, [], [], [])

  /** Woken tasks resume first woken, first resumed. */
  predicate InWakeOrder(limit: int, r: Trace, steps: seq<Step>)
    decreases |steps|
  {
    steps == [] ||
    ((steps[0].Resume? ==> r.waking != [] && r.waking[0] == steps[0].t)
     && InWakeOrder(limit, Track(limit, r, steps[0]), steps[1..]))
  }

  /** A caller gets in ahead of a task that was woken and has not resumed. */
  predicate Barges(limit: int, r: Trace, step: Step) {
    step.Call? && r.s.running < limit && r.waking != []
  }

  predicate NobodyBarges(limit: int, r: Trace, steps: seq<Step>)
    decreases |steps|
  {
    steps == [] || (!Barges(limit, r, steps[0]) && NobodyBarges(limit, Track(limit, r, steps[0]), steps[1..]))
  }

  /** Tasks started in the order in which they were called. */
  predicate InCallOrder(r: Trace) {
    r.starts <= r.calls
  }

  /**
   * So far nobody barged: calls are the started, the woken and the queued tasks, in this order, and
   * every woken task has a place.
   */
  ghost predicate Orderly(limit: int, r: Trace) {
    && Inv(limit, r.s)
    && multiset(r.waking) == r.s.woken
    && r.calls == r.starts + (r.waking + r.s.queue)
    && r.s.running + |r.waking| <= Max(0, limit)
  }

  /** Some task has started in another one's turn. */
  ghost predicate OutOfTurn(r: Trace) {
    exists i :: 0 <= i < |r.starts| && i < |r.calls| && r.starts[i] != r.calls[i]
  }

  lemma {:induction false} OutOfTurnStays(limit: int, r: Trace, steps: seq<Step>)
    requires OutOfTurn(r)
    ensures !InCallOrder(TrackAll(limit, r, steps))
    decreases |steps|
  {
    var i :| 0 <= i < |r.starts| && i < |r.calls| && r.starts[i] != r.calls[i];
    if steps != [] {
      var next := Track(limit, r, steps[0]);
      assert next.starts[i] == r.starts[i] && next.calls[i] == r.calls[i];
      OutOfTurnStays(limit, next, steps[1..]);
    }
  }

  /** Without barging every resumption finds its place free, and nothing changes the order. */
  lemma OrderlyStep(limit: int, r: Trace, step: Step)
    requires Orderly(limit, r) && Enabled(r.s, step) && !Barges(limit, r, step)
    requires step.Resume? ==> r.waking != [] && r.waking[0] == step.t
    ensures Orderly(limit, Track(limit, r, step))
  {
    hide Places, Inv;
    StepKeepsInv(limit, r.s, step);
    match step
    case Call(t) => OrderlyCall(limit, r, t);
    case Finish(t) => OrderlyFinish(limit, r, t);
    case Resume(t) => OrderlyResume(limit, r, t);
  }

  lemma OrderlyCall(limit: int, r: Trace, t: TaskId)
    requires Orderly(limit, r) && !Barges(limit, r, Call(t))
    ensures var next := Track(limit, r, Call(t));
            && multiset(next.waking) == next.s.woken && next.s.running + |next.waking| <= Max(0, limit)
            && next.calls == next.starts + (next.waking + next.s.queue)
  {
    hide Places, Unique;
    if r.s.running >= limit {
      ConcatAssociates(r.starts, r.waking + r.s.queue, [t]);
      ConcatAssociates(r.waking, r.s.queue, [t]);
    } else {
      assert |r.s.woken| == |multiset(r.waking)| == |r.waking| == 0;
      assert r.waking + r.s.queue == [];
    }
  }

  lemma OrderlyFinish(limit: int, r: Trace, t: TaskId)
    requires Orderly(limit, r)
    ensures var next := Track(limit, r, Finish(t));
            && multiset(next.waking) == next.s.woken && next.s.running + |next.waking| <= Max(0, limit)
            && next.calls == next.starts + (next.waking + next.s.queue)
  {
    hide Inv;
    if r.s.queue != [] {
      WakeFirst(r.starts, r.waking, r.s.queue);
    }
  }

  lemma OrderlyResume(limit: int, r: Trace, t: TaskId)
    requires Orderly(limit, r) && r.waking != [] && r.waking[0] == t
    ensures var next := Track(limit, r, Resume(t));
            && multiset(next.waking) == next.s.woken && next.s.running + |next.waking| <= Max(0, limit)
            && next.calls == next.starts + (next.waking + next.s.queue)
  {
    hide Places, Unique;
    HeadLeavesQueue(r.waking);
    ResumeFirst(r.starts, r.waking, r.s.queue);
  }

  lemma ResumeFirst(starts: seq<TaskId>, waking: seq<TaskId>, queue: seq<TaskId>)
    requires waking != []
    ensures starts + (waking + queue) == (starts + [waking[0]]) + (waking[1..] + queue)
  {
    assert waking == [waking[0]] + waking[1..];
    ConcatAssociates([waking[0]], waking[1..], queue);
    ConcatAssociates(starts, [waking[0]], waking[1..] + queue);
  }

  lemma WakeFirst(starts: seq<TaskId>, waking: seq<TaskId>, queue: seq<TaskId>)
    requires queue != []
    ensures starts + (waking + queue) == starts + ((waking + [queue[0]]) + queue[1..])
  {
    assert queue == [queue[0]] + queue[1..];
    ConcatAssociates(waking, [queue[0]], queue[1..]);
  }

  lemma BargingStep(limit: int, r: Trace, step: Step)
    requires Orderly(limit, r) && Enabled(r.s, step) && Barges(limit, r, step)
    ensures OutOfTurn(Track(limit, r, step))
  {
    var next, i := Track(limit, r, step), |r.starts|;
    assert r.waking[0] in multiset(r.waking);
    assert r.waking[0] in Places(r.s);
    assert next.starts[i] == step.t && next.calls[i] == r.waking[0];
  }

  lemma {:induction false} CallOrderFrom(limit: int, r: Trace, steps: seq<Step>)
    requires Orderly(limit, r) && IsRun(limit, r.s, steps) && InWakeOrder(limit, r, steps)
    ensures InCallOrder(TrackAll(limit, r, steps)) <==> NobodyBarges(limit, r, steps)
    decreases |steps|
  {
    hide Orderly, Next, OutOfTurn;
    if steps == [] {
      OrderlyMeansInOrder(limit, r);
    } else if Barges(limit, r, steps[0]) {
      BargingStep(limit, r, steps[0]);
      OutOfTurnStays(limit, Track(limit, r, steps[0]), steps[1..]);
    } else {
      OrderlyStep(limit, r, steps[0]);
      CallOrderFrom(limit, Track(limit, r, steps[0]), steps[1..]);
    }
  }

  lemma OrderlyMeansInOrder(limit: int, r: Trace)
    requires Orderly(limit, r)
    ensures InCallOrder(r)
  {
  }

  /**
   * A run that resumes in wake order starts its tasks in call order exactly when no call is admitted
   * while a task is woken.
   */
  lemma CallOrderIff(limit: int, steps: seq<Step>)
    requires IsRun(limit, IDLE, steps) && InWakeOrder(limit, UNTOUCHED, steps)
    ensures InCallOrder(TrackAll(limit, UNTOUCHED, steps)) <==> NobodyBarges(limit, UNTOUCHED, steps)
  {
    CallOrderFrom(limit, UNTOUCHED, steps);
  }

  /** The bookkeeping is that of the run: its states, the tasks it calls, and those it has started. */
  lemma {:induction false} TraceFollowsRun(limit: int, r: Trace, steps: seq<Step>)
    requires IsRun(limit, r.s, steps) && multiset(r.starts) == r.s.active + r.s.done
    ensures var last := TrackAll(limit, r, steps);
            && last.s == After(limit, r.s, steps)
            && multiset(last.calls) == multiset(r.calls) + CallsIn(steps)
            && multiset(last.starts) == last.s.active + last.s.done
    decreases |steps|
  {
    hide Enabled, Places;
    if steps != [] {
      StartedStep(limit, r, steps[0]);
      TraceFollowsRun(limit, Track(limit, r, steps[0]), steps[1..]);
    }
  }

  lemma StartedStep(limit: int, r: Trace, step: Step)
    requires Enabled(r.s, step) && multiset(r.starts) == r.s.active + r.s.done
    ensures multiset(Track(limit, r, step).starts) == Track(limit, r, step).s.active + Track(limit, r, step).s.done
    ensures Track(limit, r, step).s == Next(limit, r.s, step)
  {
    if step.Finish? {
      MoveOne(multiset{}, r.s.active, r.s.done, step.t);
    }
  }

  // ----- The object -----

  class AsyncQueue {
    const concurrency: int
    var running: int
    var queue: seq<TaskId>
    ghost var woken: multiset<TaskId>
    ghost var active: multiset<TaskId>
    ghost var done: multiset<TaskId>

    ghost function View(): State
      reads this
    {
      State(running, queue, woken, active, done)
    }

    ghost predicate Valid()
      reads this
    {
      Inv(concurrency, View())
    }

    constructor (concurrency: int)
      ensures Valid() && View() == IDLE && this.concurrency == concurrency
    {
      this.concurrency, running, queue := concurrency, 0, [];
      woken, active, done := multiset{}, multiset{}, multiset{};
    }

    /** The stretch from a call to its first await: start the task, or join the queue. */
    method Begin(t: TaskId) returns (started: bool)
      requires Valid() && Enabled(View(), Call(t))
      modifies this
      ensures Valid() && View() == Next(concurrency, old(View()), Call(t))
      ensures started <==> t in active
    {
      StepKeepsInv(concurrency, View(), Call(t));
      started := Test(t);
    }

    /** A woken waiter goes back to the loop head. */
    method WakeUp(t: TaskId) returns (started: bool)
      requires Valid() && Enabled(View(), Resume(t))
      modifies this
      ensures Valid() && View() == Next(concurrency, old(View()), Resume(t))
      ensures started <==> t in active
    {
      StepKeepsInv(concurrency, View(), Resume(t));
      woken := woken - multiset{t};
      started := Test(t);
    }

    method Test(t: TaskId) returns (started: bool)
      requires t !in active
      modifies this
      ensures View() == Enter(concurrency, old(View()), t)
      ensures started <==> t in active
    {
      if running >= concurrency {
        queue := queue + [t];
        return false;
      }
      running := running + 1;
      active := active + multiset{t};
      return true;
    }

    /** The task's promise settled, by value or by error. */
    method Settle(t: TaskId) returns (next: Option<TaskId>)
      requires Valid() && Enabled(View(), Finish(t))
      modifies this
      ensures Valid() && View() == Next(concurrency, old(View()), Finish(t))
      ensures next == if old(queue) == [] then None else Some(old(queue)[0])
    {
      hide Places;
      StepKeepsInv(concurrency, View(), Finish(t));
      running := running - 1;
      active, done := active - multiset{t}, done + multiset{t};
      if |queue| > 0 {
        next := Some(queue[0]);
        queue := queue[1..];
        woken := woken + multiset{next.value};
      } else {
        next := None;
      }
    }
  }
}
