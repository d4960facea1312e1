/** Runs of the fair queue: what holds in every reachable state and of every history. */
module FairQueueRuns {
  import opened Wrappers
  import opened Rotation
  import opened FairQueue
  import opened FairQueueInvariant

  /** The smallest steps; every public operation of the class is a sequence of these. */
  datatype Step =
    | SubmitStep(c: Connection, bytes: nat)
    | DispatchStep
    | ReleaseStep(id: nat)
    | ExpireStep(id: nat)
    | CheckIdleStep
    | StopStep
    | CancelStep
    | WaitStep(waiter: nat)
    | GiveUpStep(waiter: nat)

  ghost predicate Enabled(l: Limits, s: State, step: Step)
    requires Inv(l, s)
  {
    match step
    case DispatchStep => CanDispatch(l, s)
    case ReleaseStep(id) => id < |s.tasks| && s.status[id].Active?
    case ExpireStep(id) => id < |s.tasks|
    case _ => true
  }

  ghost function Apply(l: Limits, s: State, step: Step): (s': State)
    requires Inv(l, s) && Enabled(l, s, step)
    ensures Inv(l, s')
  {
    ApplyKeeps(l, s, step);
    match step
    case SubmitStep(c, bytes) => Submit(l, s, c, bytes)
    case DispatchStep => Dispatch(l, s)
    case ReleaseStep(id) => Release(s, id)
    case ExpireStep(id) => Expire(s, id)
    case CheckIdleStep => CheckIdle(s)
    case StopStep => s.(accepting := false)
    case CancelStep => Cancel(s)
    case WaitStep(waiter) => Wait(s, waiter)
    case GiveUpStep(waiter) => s.(idleWaiters := s.idleWaiters - {waiter})
  }

  lemma ApplyKeeps(l: Limits, s: State, step: Step)
    requires Inv(l, s) && Enabled(l, s, step)
    ensures match step
            case SubmitStep(c, bytes) => Inv(l, Submit(l, s, c, bytes))
            case DispatchStep => Inv(l, Dispatch(l, s))
            case ReleaseStep(id) => Inv(l, Release(s, id))
            case ExpireStep(id) => Inv(l, Expire(s, id))
            case CheckIdleStep => Inv(l, CheckIdle(s))
            case StopStep => Inv(l, s.(accepting := false))
            case CancelStep => Inv(l, Cancel(s))
            case WaitStep(waiter) => Inv(l, Wait(s, waiter))
            case GiveUpStep(waiter) => Inv(l, s.(idleWaiters := s.idleWaiters - {waiter}))
  {
    match step
    case SubmitStep(c, bytes) => SubmitKeeps(l, s, c, bytes);
    case DispatchStep => DispatchKeeps(l, s);
    case ReleaseStep(id) => ReleaseKeeps(l, s, id);
    case ExpireStep(id) => ExpireKeeps(l, s, id);
    case CheckIdleStep => OtherStepsKeep(l, s, {}, s.woken + s.idleWaiters, s.accepting);
    case StopStep => OtherStepsKeep(l, s, s.idleWaiters, s.woken, false);
    case CancelStep => CancelKeeps(l, s);
    case WaitStep(waiter) =>
      OtherStepsKeep(l, s, s.idleWaiters + {waiter}, s.woken, s.accepting);
      OtherStepsKeep(l, s, s.idleWaiters, s.woken + {waiter}, s.accepting);
    case GiveUpStep(waiter) => OtherStepsKeep(l, s, s.idleWaiters - {waiter}, s.woken, s.accepting);
  }

  /** A history: the states passed through and the steps between them. */
  ghost predicate IsRun(l: Limits, states: seq<State>, steps: seq<Step>) {
    && |states| == |steps| + 1
    && Inv(l, states[0])
    && forall i :: 0 <= i < |steps| ==> FollowsAt(l, states, steps, i)
  }

  ghost predicate FollowsAt(l: Limits, states: seq<State>, steps: seq<Step>, i: nat)
    requires i < |steps| && |states| == |steps| + 1
  {
    Follows(l, states[i], steps[i], states[i + 1])
  }

  ghost predicate Follows(l: Limits, s: State, step: Step, s': State) {
    Inv(l, s) && Enabled(l, s, step) && s' == Apply(l, s, step)
  }

  lemma RunKeepsInv(l: Limits, states: seq<State>, steps: seq<Step>, i: nat)
    requires IsRun(l, states, steps) && i < |states|
    ensures Inv(l, states[i])
  {
    if i > 0 {
      assert FollowsAt(l, states, steps, i - 1);
    }
  }

  // ----- What one step can do -----

  /** The moves a task's status can make in one step. */
  predicate MayBecome(before: Status, after: Status) {
    before == after
    || (before.Queued? && (after.Active? || after.Expired? || after.Cancelled?))
    || (before.Active? && after.Finished?)
  }

  /** 2 * queued + active. */
  function Outstanding(s: State): int {
    2 * s.queued + s.active
  }

  /** Tasks only move forward; a queue that stopped accepting only shrinks, and strictly so on
      `progress`; idle waiters are answered only by reaching idleness. */
  ghost predicate Effect(s: State, s': State, progress: bool)
    requires |s.tasks| == |s.status|
  {
    && |s.tasks| <= |s'.tasks| == |s'.status|
    && (forall id :: 0 <= id < |s.tasks| ==> s'.tasks[id] == s.tasks[id] && MayBecome(s.status[id], s'.status[id]))
    && (!s.accepting ==> !s'.accepting && Outstanding(s') <= Outstanding(s) - if progress then 1 else 0)
    && s.woken <= s'.woken
    && (s'.woken != s.woken ==> IsIdle(s'))
  }

  ghost predicate Progress(l: Limits, s: State, step: Step)
    requires Inv(l, s)
  {
    Enabled(l, s, step) &&
    (step.DispatchStep? || step.ReleaseStep? || (step.ExpireStep? && s.status[step.id].Queued?))
  }

  lemma DispatchEffect(l: Limits, s: State)
    requires Inv(l, s) && CanDispatch(l, s)
    ensures Effect(s, Dispatch(l, s), true)
  {
    var p := Position(s, Pick(l, s, 0).value);
    DispatchIsTake(l, s);
    TakeAtFrame(s, p);
    StartEffect(s, TakeAt(s, p), NextTask(l, s));
  }

  lemma StartEffect(s: State, taken: State, task: Task)
    requires |s.tasks| == |s.status| && SameRecord(s, taken) && task.id < |s.status| && s.status[task.id].Queued?
    requires taken.queued == s.queued && taken.woken == s.woken && taken.accepting == s.accepting
    ensures Effect(s, MarkStarted(taken, task), true)
  {
  }

  lemma ExpireEffect(l: Limits, s: State, id: nat)
    requires Inv(l, s) && id < |s.tasks|
    ensures Effect(s, Expire(s, id), s.status[id].Queued?)
  {
    QueuedIffInQueue(l, s, id);
    if s.status[id].Queued? {
      UnqueueFrame(s, s.tasks[id]);
    }
  }

  lemma SubmitEffect(l: Limits, s: State, c: Connection, bytes: nat)
    requires |s.tasks| == |s.status|
    ensures Effect(s, Submit(l, s, c, bytes), false)
  {
  }

  lemma ReleaseEffect(s: State, id: nat)
    requires Recorded(s) && id < |s.tasks| && s.status[id].Active?
    ensures Effect(s, Release(s, id), true)
  {
  }

  lemma CancelEffect(s: State)
    requires Recorded(s) && s.queued >= 0
    ensures Effect(s, Cancel(s), false)
  {
  }

  lemma QuietEffect(s: State, s': State)
    requires Recorded(s) && s'.tasks == s.tasks && s'.status == s.status
    requires s'.active == s.active && s'.queued == s.queued
    requires s'.accepting == s.accepting || !s'.accepting
    requires s.woken == s'.woken || (s.woken <= s'.woken && IsIdle(s))
    ensures Effect(s, s', false)
  {
  }

  lemma StepEffect(l: Limits, s: State, step: Step)
    requires Inv(l, s) && Enabled(l, s, step)
    ensures Effect(s, Apply(l, s, step), Progress(l, s, step))
  {
    match step
    case DispatchStep => DispatchEffect(l, s);
    case ExpireStep(id) => ExpireEffect(l, s, id);
    case SubmitStep(c, bytes) => SubmitEffect(l, s, c, bytes);
    case ReleaseStep(id) => ReleaseEffect(s, id);
    case CancelStep => CancelEffect(s);
    case _ => QuietEffect(s, Apply(l, s, step));
  }

  lemma RunEffect(l: Limits, states: seq<State>, steps: seq<Step>, i: nat)
    requires IsRun(l, states, steps) && i < |steps|
    ensures Recorded(states[i]) && Effect(states[i], states[i + 1], false)
  {
    assert FollowsAt(l, states, steps, i);
    StepEffect(l, states[i], steps[i]);
  }

  // ----- The life of one task -----

  /** Where a task can stand later in a run, given where it stands now. */
  predicate MayEndUp(now: Status, later: Status) {
    MayBecome(now, later) || (now.Queued? && later.Finished?)
  }

  /** Once rejected, finished, expired or cancelled a task stays so; in particular an expired or
      cancelled task never starts, and a task that started never goes back to the queue. */
  lemma {:induction false} TaskLife(l: Limits, states: seq<State>, steps: seq<Step>, i: nat, j: nat, id: nat)
    requires IsRun(l, states, steps) && i <= j < |states| && id < |states[i].tasks| && id < |states[i].status|
    ensures id < |states[j].tasks| && id < |states[j].status| && states[j].tasks[id] == states[i].tasks[id]
    ensures MayEndUp(states[i].status[id], states[j].status[id])
    decreases j - i
  {
    if i < j {
      var before := j - 1;
      TaskLife(l, states, steps, i, before, id);
      RunEffect(l, states, steps, before);
    }
  }

  /** No promise is settled twice: it is settled once when the task's fate is sealed, else not at all. */
  lemma SettledAtMostOnce(l: Limits, states: seq<State>, steps: seq<Step>, i: nat, id: nat)
    requires IsRun(l, states, steps) && i < |states| && id < |states[i].tasks|
    ensures id < |states[i].settlements| && id < |states[i].status|
    ensures states[i].settlements[id] == if states[i].status[id].IsSettled() then 1 else 0
  {
    RunKeepsInv(l, states, steps, i);
  }

  /** Of two tasks of one connection the one submitted first starts first, if both start. */
  lemma AdmissionOrder(l: Limits, states: seq<State>, steps: seq<Step>, i: nat, j: nat, k: nat)
    requires IsRun(l, states, steps) && i < |states|
    requires j < |states[i].started| && k < |states[i].started|
    requires states[i].started[j].connectionId == states[i].started[k].connectionId
    ensures j < k <==> states[i].started[j].id < states[i].started[k].id
  {
    RunKeepsInv(l, states, steps, i);
    var s := states[i];
    assert j < k ==> InOrder(s.started[j], s.started[k]);
    assert k < j ==> InOrder(s.started[k], s.started[j]);
  }

  // ----- Draining after stopAccepting -----

  ghost predicate ProgressAt(l: Limits, states: seq<State>, steps: seq<Step>, i: nat)
    requires i < |steps| && i < |states|
  {
    Inv(l, states[i]) && Progress(l, states[i], steps[i])
  }

  ghost function ProgressCount(l: Limits, states: seq<State>, steps: seq<Step>, i: nat): nat
    requires |states| == |steps| + 1 && i <= |steps|
    decreases |steps| - i
  {
    if i == |steps| then 0
    else ProgressCount(l, states, steps, i + 1) + if ProgressAt(l, states, steps, i) then 1 else 0
  }

  lemma RunShrinks(l: Limits, states: seq<State>, steps: seq<Step>, i: nat)
    requires IsRun(l, states, steps) && i < |steps| && !states[i].accepting
    ensures !states[i + 1].accepting
    ensures Outstanding(states[i + 1]) <= Outstanding(states[i]) - if ProgressAt(l, states, steps, i) then 1 else 0
  {
    assert FollowsAt(l, states, steps, i);
    StepEffect(l, states[i], steps[i]);
  }

  lemma OutstandingNonNegative(l: Limits, s: State)
    requires Inv(l, s)
    ensures Outstanding(s) >= 0
  {
  }

  /** Once the queue stops accepting, at most 2 * queued + active more dispatches, finishes and
      expiries can ever happen. */
  lemma {:induction false} ShutdownIsBounded(l: Limits, states: seq<State>, steps: seq<Step>, i: nat)
    requires IsRun(l, states, steps) && i <= |steps| && !states[i].accepting
    ensures ProgressCount(l, states, steps, i) <= Outstanding(states[i])
    decreases |steps| - i
  {
    if i < |steps| {
      RunShrinks(l, states, steps, i);
      ShutdownIsBounded(l, states, steps, i + 1);
    } else {
      RunKeepsInv(l, states, steps, i);
      OutstandingNonNegative(l, states[i]);
    }
  }

  /** Idle waiters are answered only by a step that leaves nothing active and nothing queued. */
  lemma WakesOnlyWhenIdle(l: Limits, states: seq<State>, steps: seq<Step>, i: nat)
    requires IsRun(l, states, steps) && i < |steps|
    ensures states[i].woken <= states[i + 1].woken
    ensures states[i + 1].woken != states[i].woken ==> IsIdle(states[i + 1])
  {
    RunEffect(l, states, steps, i);
  }
}
