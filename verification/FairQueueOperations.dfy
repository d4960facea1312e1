/** The public operations of the fair queue, each followed by the drain it triggers. */
module FairQueueOperations {
  import opened Wrappers
  import opened Rotation
  import opened FairQueue
  import opened FairQueueInvariant
  import opened FairQueueRuns

  /** `drain`: dispatch until a cap, an empty queue or a rotation full of capped connections stops it. */
  ghost function Drain(l: Limits, s: State): (s': State)
    requires Inv(l, s)
    ensures Inv(l, s') && !CanDispatch(l, s')
    decreases s.queued
  {
    if CanDispatch(l, s) then
      DispatchKeeps(l, s);
      DispatchLess(l, s);
      Drain(l, Dispatch(l, s))
    else s
  }

  lemma DispatchLess(l: Limits, s: State)
    requires Inv(l, s) && CanDispatch(l, s)
    ensures Dispatch(l, s).queued == s.queued - 1
    ensures Dispatch(l, s).queuedBytes <= s.queuedBytes
    ensures forall c :: |QueueOf(Dispatch(l, s), c)| <= |QueueOf(s, c)|
    ensures Dispatch(l, s).idleWaiters == s.idleWaiters && Dispatch(l, s).active == s.active + 1
  {
    var p := Position(s, Pick(l, s, 0).value);
    DispatchIsTake(l, s);
    TakeAtShaped(s, p);
    TakeAtFrame(s, p);
    var taken := TakeAt(s, p);
    assert forall c :: QueueOf(Dispatch(l, s), c) == QueueOf(taken, c);
  }

  datatype Operation =
    | Run(c: Connection, bytes: nat)      // run
    | Complete(id: nat)                   // a started task settles
    | TimeOut(id: nat)                    // a wait timer fires
    | StopAccepting
    | CancelQueued
    | WaitForIdle(waiter: nat)
    | GiveUpWaiting(waiter: nat)

  ghost predicate Possible(s: State, op: Operation)
    requires Recorded(s)
  {
    match op
    case Complete(id) => id < |s.tasks| && s.status[id].Active?
    case TimeOut(id) => id < |s.tasks|
    case _ => true
  }

  ghost function Execute(l: Limits, s: State, op: Operation): (s': State)
    requires Inv(l, s) && Possible(s, op)
    ensures Inv(l, s')
  {
    match op
    case Run(c, bytes) =>
      SubmitKeeps(l, s, c, bytes);
      if Admits(l, s, c, bytes) then Drain(l, Submit(l, s, c, bytes)) else Submit(l, s, c, bytes)
    case Complete(id) =>
      ReleaseKeeps(l, s, id);
      Apply(l, Drain(l, Release(s, id)), CheckIdleStep)
    case TimeOut(id) =>
      ExpireKeeps(l, s, id);
      if s.tasks[id] in QueueOf(s, s.tasks[id].connectionId) then Apply(l, Expire(s, id), CheckIdleStep) else s
    case StopAccepting => Apply(l, Apply(l, s, StopStep), CheckIdleStep)
    case CancelQueued => Apply(l, Apply(l, s, CancelStep), CheckIdleStep)
    case WaitForIdle(waiter) => Apply(l, s, WaitStep(waiter))
    case GiveUpWaiting(waiter) => Apply(l, s, GiveUpStep(waiter))
  }

  // ----- What holds between operations -----

  ghost predicate WithinQueueLimits(l: Limits, s: State) {
    && s.queued <= l.maxGlobalQueued
    && s.queuedBytes <= l.maxQueuedBytes
    && forall c :: |QueueOf(s, c)| <= l.maxConnectionQueued
  }

  /** Nothing is left to dispatch, all three queue limits hold, and no waiter sleeps through idleness. */
  ghost predicate Quiescent(l: Limits, s: State) {
    Inv(l, s) && !CanDispatch(l, s) && WithinQueueLimits(l, s) && (IsIdle(s) ==> s.idleWaiters == {})
  }

  /** Some connection with queued tasks is below its cap. */
  ghost predicate SomeBelowCap(l: Limits, s: State) {
    exists c :: c in s.rotation && BelowCap(l, s, c)
  }

  lemma PickIff(l: Limits, s: State)
    requires InRange(s.rotation, s.rotationIndex)
    ensures Pick(l, s, 0).Some? <==> SomeBelowCap(l, s)
  {
    if Pick(l, s, 0).Some? {
      CycleMembers(s.rotation, s.rotationIndex, ScanOrder(s)[Pick(l, s, 0).value]);
    } else {
      forall c | c in s.rotation ensures !BelowCap(l, s, c) {
        CycleMembers(s.rotation, s.rotationIndex, c);
        var k :| 0 <= k < |ScanOrder(s)| && ScanOrder(s)[k] == c;
      }
    }
  }

  lemma QueuedMeansCounted(l: Limits, s: State, c: Connection)
    requires Inv(l, s) && c in s.queues
    ensures s.queued > 0
  {
    OldestFirst(l, s, c);
    TallyAtLeast(CountQueued, s.tasks, s.status, s.queues[c][0].id);
  }

  lemma EmptyOrNot(s: seq<Connection>)
    ensures s == [] || s[0] in s
  {
  }

  lemma EmptyWhenNoneQueued(l: Limits, s: State)
    requires Inv(l, s) && s.queued == 0
    ensures s.rotation == [] && s.queuedBytes == 0
    ensures forall c :: QueueOf(s, c) == []
  {
    forall c ensures c !in s.queues && c !in s.rotation {
      assert c in s.rotation <==> c in s.queues;
      if c in s.queues {
        QueuedMeansCounted(l, s, c);
      }
    }
    EmptyOrNot(s.rotation);
    forall i | 0 <= i < |s.tasks| ensures !s.status[i].Queued? {
      TallyAtLeast(CountQueued, s.tasks, s.status, i);
    }
    TallyZero(QueuedBytes, s.tasks, s.status);
  }

  lemma {:induction false} DrainShrinks(l: Limits, s: State)
    requires Inv(l, s)
    ensures Drain(l, s).queued <= s.queued && Drain(l, s).queuedBytes <= s.queuedBytes
    ensures forall c :: |QueueOf(Drain(l, s), c)| <= |QueueOf(s, c)|
    ensures Drain(l, s).idleWaiters == s.idleWaiters
    ensures Outstanding(Drain(l, s)) > 0 || Outstanding(s) <= 0
    decreases s.queued
  {
    if CanDispatch(l, s) {
      DispatchKeeps(l, s);
      DispatchLess(l, s);
      DrainShrinks(l, Dispatch(l, s));
      OutstandingNonNegative(l, s);
    }
  }

  /** `s'` is `s` with one queued task started. */
  predicate Starts(s: State, s': State, task: Task)
    requires task.id < |s.status|
  {
    && s'.queued == s.queued - 1 && s'.accepting == s.accepting && s'.active == s.active + 1
    && s'.status == s.status[task.id := Active] && s'.tasks == s.tasks
    && s'.activeByConnection == s.activeByConnection[task.connectionId := ActiveOf(s, task.connectionId) + 1]
  }

  lemma MarkingStarts(s: State, taken: State, task: Task)
    requires SameRecord(s, taken) && taken.queued == s.queued && taken.accepting == s.accepting && task.id < |s.status|
    ensures Starts(s, MarkStarted(taken, task), task)
  {
  }

  lemma DispatchStarts(l: Limits, s: State)
    requires Inv(l, s) && CanDispatch(l, s)
    ensures Starts(s, Dispatch(l, s), NextTask(l, s))
  {
    var p := Position(s, Pick(l, s, 0).value);
    DispatchIsTake(l, s);
    TakeAtFrame(s, p);
    MarkingStarts(s, TakeAt(s, p), NextTask(l, s));
  }

  lemma OnlyTaskIsNext(l: Limits, s: State, task: Task)
    requires Inv(l, s) && s.rotation == [task.connectionId] && s.queued == 1 && BelowCap(l, s, task.connectionId)
    requires s.active < l.maxGlobalActive && QueueOf(s, task.connectionId) == [task]
    ensures CanDispatch(l, s) && NextTask(l, s) == task
  {
    assert SomeBelowCap(l, s);
    PickIff(l, s);
  }

  lemma LastDrains(l: Limits, s: State)
    requires Inv(l, s) && CanDispatch(l, s) && s.queued == 1
    ensures Drain(l, s) == Dispatch(l, s)
  {
    DispatchKeeps(l, s);
    DispatchLess(l, s);
  }

  /** Submitting to an empty queue makes the new task the only one queued. */
  lemma FirstInLine(l: Limits, s: State, c: Connection, bytes: nat)
    requires Admits(l, s, c, bytes) && QueueOf(s, c) == [] && s.rotation == [] && s.queued == 0 && c !in s.queues
    requires |s.tasks| == |s.status|
    ensures var (s1, task) := (Submit(l, s, c, bytes), Task(|s.tasks|, c, bytes));
            && s1.rotation == [c] && s1.queued == 1 && QueueOf(s1, c) == [task]
            && s1.status == s.status + [Queued] && s1.tasks == s.tasks + [task]
            && s1.active == s.active && s1.activeByConnection == s.activeByConnection && s1.accepting == s.accepting
  {
  }

  /** The fast path: when nothing has to wait, the new task is started at once and no queue grows. */
  lemma FastPathStarts(l: Limits, s: State, c: Connection, bytes: nat)
    requires Inv(l, s) && s.accepting && !MustWait(l, s, c) && Inv(l, Submit(l, s, c, bytes))
    ensures FastPath(s, Drain(l, Submit(l, s, c, bytes)), c, bytes)
  {
    EmptyWhenNoneQueued(l, s);
    assert c in s.rotation <==> c in s.queues;
    var s1, task := Submit(l, s, c, bytes), Task(|s.tasks|, c, bytes);
    FirstInLine(l, s, c, bytes);
    OnlyTaskIsNext(l, s1, task);
    LastDrains(l, s1);
    DispatchStarts(l, s1);
    StartsFast(s, s1, Drain(l, s1), task);
  }

  /** `s'` is `s` with a new task of `c` active and nothing queued. */
  predicate FastPath(s: State, s': State, c: Connection, bytes: nat) {
    && s'.queued == 0 && s'.accepting == s.accepting && s'.active == s.active + 1
    && s'.status == s.status + [Active] && s'.tasks == s.tasks + [Task(|s.tasks|, c, bytes)]
    && s'.activeByConnection == s.activeByConnection[c := ActiveOf(s, c) + 1]
  }

  lemma StartsFast(s: State, s1: State, s': State, task: Task)
    requires s1.status == s.status + [Queued] && s1.tasks == s.tasks + [task] && task.id == |s.status| == |s.tasks|
    requires s1.queued == 1 && s1.active == s.active && s1.activeByConnection == s.activeByConnection
    requires s1.accepting == s.accepting && Starts(s1, s', task)
    ensures FastPath(s, s', task.connectionId, task.bytes)
  {
    assert (s.status + [Queued])[|s.status| := Active] == s.status + [Active];
  }

  lemma RunStaysWithin(l: Limits, s: State, c: Connection, bytes: nat)
    requires Inv(l, s) && WithinQueueLimits(l, s) && Admits(l, s, c, bytes) && Inv(l, Submit(l, s, c, bytes))
    ensures WithinQueueLimits(l, Drain(l, Submit(l, s, c, bytes)))
  {
    var s1 := Submit(l, s, c, bytes);
    if MustWait(l, s, c) {
      SubmitStaysWithin(l, s, c, bytes);
      DrainStaysWithin(l, s1);
    } else {
      FastPathStarts(l, s, c, bytes);
      EmptyWhenNoneQueued(l, Drain(l, s1));
    }
  }

  lemma SubmitStaysWithin(l: Limits, s: State, c: Connection, bytes: nat)
    requires WithinQueueLimits(l, s) && Admits(l, s, c, bytes) && MustWait(l, s, c)
    ensures WithinQueueLimits(l, Submit(l, s, c, bytes))
  {
    var s1 := Submit(l, s, c, bytes);
    forall d ensures |QueueOf(s1, d)| <= l.maxConnectionQueued {
      assert |QueueOf(s, d)| <= l.maxConnectionQueued;
    }
  }

  lemma DrainStaysWithin(l: Limits, s: State)
    requires Inv(l, s) && WithinQueueLimits(l, s)
    ensures WithinQueueLimits(l, Drain(l, s))
  {
    DrainShrinks(l, s);
    forall d ensures |QueueOf(Drain(l, s), d)| <= l.maxConnectionQueued {
      assert |QueueOf(s, d)| <= l.maxConnectionQueued;
    }
  }

  /** The queue limits and the readiness to dispatch depend on these fields only. */
  lemma SameQueues(l: Limits, s: State, s': State)
    requires InRange(s.rotation, s.rotationIndex)
    requires s'.rotation == s.rotation && s'.rotationIndex == s.rotationIndex && s'.queues == s.queues
    requires s'.active == s.active && s'.activeByConnection == s.activeByConnection
    requires s'.queued == s.queued && s'.queuedBytes == s.queuedBytes
    ensures CanDispatch(l, s') <==> CanDispatch(l, s)
    ensures WithinQueueLimits(l, s') <==> WithinQueueLimits(l, s)
  {
    PickIff(l, s);
    PickIff(l, s');
    assert forall c :: BelowCap(l, s', c) <==> BelowCap(l, s, c);
    assert forall c :: QueueOf(s', c) == QueueOf(s, c);
  }

  lemma RunQuiescent(l: Limits, s: State, c: Connection, bytes: nat)
    requires Quiescent(l, s)
    ensures Quiescent(l, Execute(l, s, Run(c, bytes)))
  {
    SubmitKeeps(l, s, c, bytes);
    if Admits(l, s, c, bytes) {
      RunStaysWithin(l, s, c, bytes);
      DrainShrinks(l, Submit(l, s, c, bytes));
    } else {
      SameQueues(l, s, Submit(l, s, c, bytes));
    }
  }

  lemma CheckIdleQuiescent(l: Limits, s: State)
    requires Inv(l, s) && !CanDispatch(l, s) && WithinQueueLimits(l, s)
    ensures Quiescent(l, Apply(l, s, CheckIdleStep))
  {
    SameQueues(l, s, CheckIdle(s));
  }

  lemma CompleteQuiescent(l: Limits, s: State, id: nat)
    requires Quiescent(l, s) && id < |s.tasks| && s.status[id].Active?
    ensures Quiescent(l, Execute(l, s, Complete(id)))
  {
    ReleaseKeeps(l, s, id);
    var s1 := Release(s, id);
    assert WithinQueueLimits(l, s1) by {
      assert forall d :: QueueOf(s1, d) == QueueOf(s, d);
    }
    DrainStaysWithin(l, s1);
    CheckIdleQuiescent(l, Drain(l, s1));
  }

  /** A capped or full scheduler stays stuck when a queue only gets shorter. */
  lemma ExpireStaysStuck(l: Limits, s: State, id: nat)
    requires Inv(l, s) && !CanDispatch(l, s) && id < |s.tasks| && Inv(l, Expire(s, id))
    requires s.tasks[id] in QueueOf(s, s.tasks[id].connectionId)
    ensures !CanDispatch(l, Expire(s, id))
  {
    var s' := Expire(s, id);
    UnqueueFrame(s, s.tasks[id]);
    PickIff(l, s);
    PickIff(l, s');
    forall c | c in s'.rotation && BelowCap(l, s', c) ensures SomeBelowCap(l, s) {
      UnqueueKeepsMembers(s, s.tasks[id], c);
      assert BelowCap(l, s, c);
    }
  }

  lemma UnqueueKeepsMembers(s: State, task: Task, c: Connection)
    requires Shaped(s) && task in QueueOf(s, task.connectionId) && c in Unqueue(s, task).rotation
    ensures c in s.rotation
  {
    var owner := task.connectionId;
    assert owner in s.queues;
    assert owner in s.rotation;
    RemoveAtNoDuplicates(s.rotation, IndexOf(s.rotation, owner));
  }

  lemma ExpireStaysWithin(l: Limits, s: State, id: nat)
    requires Recorded(s) && Shaped(s) && WithinQueueLimits(l, s) && id < |s.tasks|
    requires s.tasks[id] in QueueOf(s, s.tasks[id].connectionId)
    ensures WithinQueueLimits(l, Expire(s, id))
  {
    var task := s.tasks[id];
    UnqueueShaped(s, task);
    UnqueueFrame(s, task);
    var s', shorter := Expire(s, id), Unqueue(s, task);
    forall d ensures |QueueOf(s', d)| <= l.maxConnectionQueued {
      assert QueueOf(s', d) == QueueOf(shorter, d);
      assert |QueueOf(s, d)| <= l.maxConnectionQueued;
    }
  }

  lemma TimeOutQuiescent(l: Limits, s: State, id: nat)
    requires Quiescent(l, s) && id < |s.tasks|
    ensures Quiescent(l, Execute(l, s, TimeOut(id)))
  {
    ExpireKeeps(l, s, id);
    if s.tasks[id] in QueueOf(s, s.tasks[id].connectionId) {
      ExpireStaysStuck(l, s, id);
      ExpireStaysWithin(l, s, id);
      CheckIdleQuiescent(l, Expire(s, id));
    }
  }

  lemma CancelQuiescent(l: Limits, s: State)
    requires Quiescent(l, s) && Inv(l, Cancel(s))
    ensures !CanDispatch(l, Cancel(s)) && WithinQueueLimits(l, Cancel(s))
  {
    assert forall d :: QueueOf(Cancel(s), d) == [];
  }

  /** Every operation leads from a quiescent state to a quiescent state. */
  lemma ExecuteQuiescent(l: Limits, s: State, op: Operation)
    requires Quiescent(l, s) && Possible(s, op)
    ensures Quiescent(l, Execute(l, s, op))
  {
    match op
    case Run(c, bytes) => RunQuiescent(l, s, c, bytes);
    case Complete(id) => CompleteQuiescent(l, s, id);
    case TimeOut(id) => TimeOutQuiescent(l, s, id);
    case StopAccepting =>
      var stopped := Apply(l, s, StopStep);
      SameQueues(l, s, stopped);
      CheckIdleQuiescent(l, stopped);
    case CancelQueued =>
      var cancelled := Apply(l, s, CancelStep);
      CancelQuiescent(l, s);
      CheckIdleQuiescent(l, cancelled);
    case WaitForIdle(waiter) => SameQueues(l, s, Apply(l, s, WaitStep(waiter)));
    case GiveUpWaiting(waiter) => SameQueues(l, s, Apply(l, s, GiveUpStep(waiter)));
  }

  /** A history of the queue since its construction: any operations, in any order. */
  ghost predicate IsHistory(l: Limits, states: seq<State>, ops: seq<Operation>) {
    && |states| == |ops| + 1
    && states[0] == INITIAL
    && forall i :: 0 <= i < |ops| ==> OperationAt(l, states, ops, i)
  }

  ghost predicate OperationAt(l: Limits, states: seq<State>, ops: seq<Operation>, i: nat)
    requires i < |ops| && |states| == |ops| + 1
  {
    Inv(l, states[i]) && Possible(states[i], ops[i]) && states[i + 1] == Execute(l, states[i], ops[i])
  }

  /** Every state of every history is quiescent. */
  lemma {:induction false} HistoryIsQuiescent(l: Limits, states: seq<State>, ops: seq<Operation>, i: nat)
    requires IsHistory(l, states, ops) && i < |states|
    ensures Quiescent(l, states[i])
  {
    if i == 0 {
      InitialHolds(l);
    } else {
      HistoryIsQuiescent(l, states, ops, i - 1);
      assert OperationAt(l, states, ops, i - 1);
      ExecuteQuiescent(l, states[i - 1], ops[i - 1]);
    }
  }

  // ----- Operations are made of steps -----

  /** A run of steps from `s` to `s'`. */
  ghost predicate Leads(l: Limits, s: State, states: seq<State>, steps: seq<Step>, s': State) {
    IsRun(l, states, steps) && states[0] == s && states[|steps|] == s'
  }

  lemma ShiftFollows(l: Limits, s: State, step: Step, states: seq<State>, steps: seq<Step>, i: nat)
    requires |states| == |steps| + 1 && i < |steps| && FollowsAt(l, states, steps, i)
    ensures FollowsAt(l, [s] + states, [step] + steps, i + 1)
  {
  }

  lemma HeadFollows(l: Limits, s: State, step: Step, states: seq<State>, steps: seq<Step>)
    requires |states| == |steps| + 1 && Follows(l, s, step, states[0])
    ensures FollowsAt(l, [s] + states, [step] + steps, 0)
  {
  }

  lemma OneStep(l: Limits, s: State, step: Step, states: seq<State>, steps: seq<Step>, s': State)
    returns (states': seq<State>, steps': seq<Step>)
    requires Inv(l, s) && Enabled(l, s, step) && Leads(l, Apply(l, s, step), states, steps, s')
    ensures Leads(l, s, states', steps', s')
  {
    states', steps' := [s] + states, [step] + steps;
    HeadFollows(l, s, step, states, steps);
    forall i | 0 <= i < |steps'| ensures FollowsAt(l, states', steps', i) {
      if i > 0 {
        ShiftFollows(l, s, step, states, steps, i - 1);
      }
    }
  }

  lemma NoStep(l: Limits, s: State) returns (states: seq<State>, steps: seq<Step>)
    requires Inv(l, s)
    ensures Leads(l, s, states, steps, s)
  {
    states, steps := [s], [];
  }

  lemma {:induction false} DrainIsRun(l: Limits, s: State, states: seq<State>, steps: seq<Step>, s': State)
    returns (states': seq<State>, steps': seq<Step>)
    requires Inv(l, s) && Leads(l, Drain(l, s), states, steps, s')
    ensures Leads(l, s, states', steps', s')
    decreases s.queued
  {
    if CanDispatch(l, s) {
      DispatchKeeps(l, s);
      DispatchLess(l, s);
      var rest, moves := DrainIsRun(l, Dispatch(l, s), states, steps, s');
      states', steps' := OneStep(l, s, DispatchStep, rest, moves, s');
    } else {
      states', steps' := states, steps;
    }
  }

  /** Whatever is proved of runs of steps holds of the operations: each one is such a run. */
  lemma OperationIsRun(l: Limits, s: State, op: Operation) returns (states: seq<State>, steps: seq<Step>)
    requires Inv(l, s) && Possible(s, op)
    ensures Leads(l, s, states, steps, Execute(l, s, op))
  {
    var s' := Execute(l, s, op);
    states, steps := NoStep(l, s');
    match op
    case Run(c, bytes) =>
      SubmitKeeps(l, s, c, bytes);
      if Admits(l, s, c, bytes) {
        states, steps := DrainIsRun(l, Submit(l, s, c, bytes), states, steps, s');
      }
      states, steps := OneStep(l, s, SubmitStep(c, bytes), states, steps, s');
    case Complete(id) =>
      ReleaseKeeps(l, s, id);
      states, steps := OneStep(l, Drain(l, Release(s, id)), CheckIdleStep, states, steps, s');
      states, steps := DrainIsRun(l, Release(s, id), states, steps, s');
      states, steps := OneStep(l, s, ReleaseStep(id), states, steps, s');
    case TimeOut(id) =>
      if s.tasks[id] in QueueOf(s, s.tasks[id].connectionId) {
        ExpireKeeps(l, s, id);
        states, steps := OneStep(l, Expire(s, id), CheckIdleStep, states, steps, s');
        states, steps := OneStep(l, s, ExpireStep(id), states, steps, s');
      }
    case StopAccepting =>
      states, steps := OneStep(l, Apply(l, s, StopStep), CheckIdleStep, states, steps, s');
      states, steps := OneStep(l, s, StopStep, states, steps, s');
    case CancelQueued =>
      states, steps := OneStep(l, Apply(l, s, CancelStep), CheckIdleStep, states, steps, s');
      states, steps := OneStep(l, s, CancelStep, states, steps, s');
    case WaitForIdle(waiter) => states, steps := OneStep(l, s, WaitStep(waiter), states, steps, s');
    case GiveUpWaiting(waiter) => states, steps := OneStep(l, s, GiveUpStep(waiter), states, steps, s');
  }

  /** No slot is wasted: either the global cap is reached or every waiting connection is at its own. */
  lemma WorkConserving(l: Limits, s: State)
    requires Quiescent(l, s)
    ensures s.active == l.maxGlobalActive || forall c :: c in s.queues ==> ActiveOf(s, c) == l.maxConnectionActive
  {
    PickIff(l, s);
    forall c | c in s.queues && s.active < l.maxGlobalActive ensures ActiveOf(s, c) == l.maxConnectionActive {
      assert c in s.rotation;
      QueuedMeansCounted(l, s, c);
      assert !BelowCap(l, s, c);
      assert ActiveOf(s, c) <= l.maxConnectionActive;
    }
  }

  // ----- The counters as sums over the maps -----

  function SumQueued(keys: seq<Connection>, tasks: seq<Task>, status: seq<Status>): nat
    requires |tasks| == |status|
  {
    if keys == [] then 0 else |Waiting(tasks, status, keys[0])| + SumQueued(keys[1..], tasks, status)
  }

  function SumActive(keys: seq<Connection>, tasks: seq<Task>, status: seq<Status>): nat
    requires |tasks| == |status|
  {
    if keys == [] then 0 else Tally(CountActiveOf(keys[0]), tasks, status) + SumActive(keys[1..], tasks, status)
  }

  function Occurs(keys: seq<Connection>, c: Connection): nat {
    if keys == [] then 0 else (if keys[0] == c then 1 else 0) + Occurs(keys[1..], c)
  }

  lemma {:induction false} OccursOnce(keys: seq<Connection>, c: Connection)
    requires NoDuplicates(keys)
    ensures Occurs(keys, c) == if c in keys then 1 else 0
  {
    if keys != [] {
      OccursOnce(keys[1..], c);
    }
  }

  /** One more task adds to the sums exactly as often as its connection is listed. */
  lemma {:induction false} SumsAddLast(keys: seq<Connection>, tasks: seq<Task>, status: seq<Status>)
    requires |tasks| == |status| > 0
    ensures var last := |tasks| - 1;
            SumQueued(keys, tasks, status) == SumQueued(keys, tasks[..last], status[..last])
              + (if status[last].Queued? then Occurs(keys, tasks[last].connectionId) else 0)
    ensures var last := |tasks| - 1;
            SumActive(keys, tasks, status) == SumActive(keys, tasks[..last], status[..last])
              + (if status[last].Active? then Occurs(keys, tasks[last].connectionId) else 0)
  {
    if keys != [] {
      SumsAddLast(keys[1..], tasks, status);
    }
  }

  lemma {:induction false} SumsAreTallies(keys: seq<Connection>, tasks: seq<Task>, status: seq<Status>)
    requires |tasks| == |status| && NoDuplicates(keys)
    ensures (forall i :: 0 <= i < |tasks| && status[i].Queued? ==> tasks[i].connectionId in keys) ==>
              SumQueued(keys, tasks, status) == Tally(CountQueued, tasks, status)
    ensures (forall i :: 0 <= i < |tasks| && status[i].Active? ==> tasks[i].connectionId in keys) ==>
              SumActive(keys, tasks, status) == Tally(CountActive, tasks, status)
  {
    if tasks == [] {
      SumsOfNothing(keys);
    } else {
      var last := |tasks| - 1;
      SumsAreTallies(keys, tasks[..last], status[..last]);
      SumsAddLast(keys, tasks, status);
      OccursOnce(keys, tasks[last].connectionId);
    }
  }

  lemma {:induction false} SumsOfNothing(keys: seq<Connection>)
    ensures SumQueued(keys, [], []) == 0 && SumActive(keys, [], []) == 0
  {
    if keys != [] {
      SumsOfNothing(keys[1..]);
    }
  }

  function BytesOf(queue: seq<Task>): nat {
    if queue == [] then 0 else BytesOf(queue[..|queue| - 1]) + queue[|queue| - 1].bytes
  }

  function SumBytes(keys: seq<Connection>, tasks: seq<Task>, status: seq<Status>): nat
    requires |tasks| == |status|
  {
    if keys == [] then 0 else BytesOf(Waiting(tasks, status, keys[0])) + SumBytes(keys[1..], tasks, status)
  }

  lemma BytesAddLast(tasks: seq<Task>, status: seq<Status>, c: Connection)
    requires |tasks| == |status| > 0
    ensures var last := |tasks| - 1;
            BytesOf(Waiting(tasks, status, c)) == BytesOf(Waiting(tasks[..last], status[..last], c))
              + if status[last].Queued? && tasks[last].connectionId == c then tasks[last].bytes else 0
  {
    var last := |tasks| - 1;
    var before, after := Waiting(tasks[..last], status[..last], c), Waiting(tasks, status, c);
    if status[last].Queued? && tasks[last].connectionId == c {
      assert after[..|after| - 1] == before;
    } else {
      assert after == before;
    }
  }

  /** One more task adds its bytes if its connection is listed. */
  lemma {:induction false} SumBytesAddLast(keys: seq<Connection>, tasks: seq<Task>, status: seq<Status>)
    requires |tasks| == |status| > 0 && NoDuplicates(keys)
    ensures var last := |tasks| - 1;
            SumBytes(keys, tasks, status) == SumBytes(keys, tasks[..last], status[..last])
              + if status[last].Queued? && tasks[last].connectionId in keys then tasks[last].bytes else 0
  {
    if keys != [] {
      BytesAddLast(tasks, status, keys[0]);
      SumBytesAddLast(keys[1..], tasks, status);
    }
  }

  lemma {:induction false} SumBytesIsTally(keys: seq<Connection>, tasks: seq<Task>, status: seq<Status>)
    requires |tasks| == |status| && NoDuplicates(keys)
    requires forall i :: 0 <= i < |tasks| && status[i].Queued? ==> tasks[i].connectionId in keys
    ensures SumBytes(keys, tasks, status) == Tally(QueuedBytes, tasks, status)
  {
    if tasks == [] {
      NoBytes(keys);
    } else {
      var last := |tasks| - 1;
      SumBytesIsTally(keys, tasks[..last], status[..last]);
      SumBytesAddLast(keys, tasks, status);
    }
  }

  lemma {:induction false} NoBytes(keys: seq<Connection>)
    ensures SumBytes(keys, [], []) == 0
  {
    if keys != [] {
      NoBytes(keys[1..]);
    }
  }

  /** `queued` and `queuedBytes` are the sums of the lengths and of the bytes of the queues over the rotation, and
      `active` the sum of `activeByConnection` over any duplicate-free listing of its keys. */
  lemma CountersAreSums(l: Limits, s: State, keys: seq<Connection>)
    requires Inv(l, s) && NoDuplicates(keys) && forall c :: c in keys <==> c in s.activeByConnection
    ensures s.queued == SumQueued(s.rotation, s.tasks, s.status)
    ensures s.queuedBytes == SumBytes(s.rotation, s.tasks, s.status)
    ensures forall c :: QueueOf(s, c) == Waiting(s.tasks, s.status, c)
    ensures s.active == SumActive(keys, s.tasks, s.status)
    ensures forall c :: ActiveOf(s, c) == Tally(CountActiveOf(c), s.tasks, s.status)
  {
    forall i | 0 <= i < |s.tasks| && s.status[i].Queued? ensures s.tasks[i].connectionId in s.rotation {
      QueuedIffInQueue(l, s, i);
    }
    forall i | 0 <= i < |s.tasks| && s.status[i].Active? ensures s.tasks[i].connectionId in keys {
      TallyAtLeast(CountActiveOf(s.tasks[i].connectionId), s.tasks, s.status, i);
      assert ActiveOf(s, s.tasks[i].connectionId) > 0;
    }
    SumsAreTallies(s.rotation, s.tasks, s.status);
    SumBytesIsTally(s.rotation, s.tasks, s.status);
    SumsAreTallies(keys, s.tasks, s.status);
  }
}
