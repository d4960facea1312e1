/** How events enter the gateway: what an arrival records, and what the fair queue is told of its payload. */
module GatewayIntake {
  import opened Wrappers
  import FQ = FairQueue
  import FO = FairQueueOperations
  import FE = FairQueueEffects
  import FI = FairQueueInvariant
  import opened FairQueueMoves
  import opened Gateway
  import opened GatewayInvariant
  import opened GatewayRuns
  import opened GatewaySafety

  // ----- Every task belongs to one operation -----

  ghost predicate HasOwner(ops: seq<Operation>, t: nat) {
    exists i :: 0 <= i < |ops| && ops[i].task == Some(t)
  }

  ghost predicate AllOwned(ops: seq<Operation>, n: nat) {
    forall t :: 0 <= t < n ==> HasOwner(ops, t)
  }

  lemma LaterOwned(ops: seq<Operation>, ops': seq<Operation>, n: nat)
    requires AllOwned(ops, n) && AllLater(ops, ops')
    ensures AllOwned(ops', n)
  {
    forall t | 0 <= t < n ensures HasOwner(ops', t) {
      assert HasOwner(ops, t);
      var i :| 0 <= i < |ops| && ops[i].task == Some(t);
      assert Later(ops[i], ops'[i]);
    }
  }

  lemma OwnedNext(ops: seq<Operation>, n: nat, i: nat)
    requires AllOwned(ops, n) && i < |ops| && ops[i].task == Some(n)
    ensures AllOwned(ops, n + 1)
  {
    assert HasOwner(ops, n);
  }

  /** The fair queue's record grows only when an operation enters. */
  lemma RecordGrows(c: Config, g: State, step: Step)
    requires Inv(c, g) && Enabled(c, g, step)
    ensures |FairAfter(c, g, step).tasks| == |g.fair.tasks| + One(step.Enter?)
  {
    match step
    case Enter(i) => ExecuteMoves(c.limits, g.fair, FO.Run(g.ops[i].event.connectionId, g.ops[i].event.bytes));
    case Finish(i) => ExecuteMoves(c.limits, g.fair, FO.Complete(TaskOf(g, i)));
    case Queue(op) => ExecuteMoves(c.limits, g.fair, op);
    case _ =>
  }

  lemma StepOwned(c: Config, g: State, step: Step)
    requires Inv(c, g) && Enabled(c, g, step) && AllOwned(g.ops, |g.fair.tasks|)
    ensures AllOwned(Apply(c, g, step).ops, |Apply(c, g, step).fair.tasks|)
  {
    RecordGrows(c, g, step);
    StepIsLater(c, g, step, FairAfter(c, g, step));
    NextFair(c, g, step, FairAfter(c, g, step));
    LaterOwned(g.ops, Apply(c, g, step).ops, |g.fair.tasks|);
    if step.Enter? {
      OwnedNext(Apply(c, g, step).ops, |g.fair.tasks|, step.i);
    }
  }

  lemma {:induction false} OwnedThroughout(c: Config, states: seq<State>, steps: seq<Step>, n: nat)
    requires IsRun(c, states, steps) && Starting(states[0]) && n < |states|
    ensures AllOwned(states[n].ops, |states[n].fair.tasks|)
  {
    if n > 0 {
      OwnedThroughout(c, states, steps, n - 1);
      assert FollowsAt(c, states, steps, n - 1);
      StepOwned(c, states[n - 1], steps[n - 1]);
    }
  }

  // ----- The payloads of the waiting operations -----

  /** The payload bytes of the operations whose task still waits in the fair queue. */
  function WaitingBytes(ops: seq<Operation>, status: seq<FQ.Status>): nat {
    if ops == [] then 0
    else WaitingBytes(ops[..|ops| - 1], status) + BytesIfWaiting(ops[|ops| - 1], status)
  }

  function BytesIfWaiting(op: Operation, status: seq<FQ.Status>): nat {
    if op.task.Some? && op.task.value < |status| && status[op.task.value].Queued? then op.event.bytes else 0
  }

  lemma {:induction false} WithoutOwner(ops: seq<Operation>, status: seq<FQ.Status>, st: FQ.Status)
    requires forall i :: 0 <= i < |ops| ==> ops[i].task != Some(|status|)
    ensures WaitingBytes(ops, status + [st]) == WaitingBytes(ops, status)
  {
    if ops != [] {
      WithoutOwner(ops[..|ops| - 1], status, st);
    }
  }

  lemma {:induction false} WithOwner(ops: seq<Operation>, status: seq<FQ.Status>, st: FQ.Status, i: nat)
    requires i < |ops| && ops[i].task == Some(|status|)
    requires forall j :: 0 <= j < |ops| && j != i ==> ops[j].task != Some(|status|)
    ensures WaitingBytes(ops, status + [st]) ==
            WaitingBytes(ops, status) + if st.Queued? then ops[i].event.bytes else 0
  {
    var last := |ops| - 1;
    if i == last {
      WithoutOwner(ops[..last], status, st);
    } else {
      WithOwner(ops[..last], status, st, i);
    }
  }

  lemma {:induction false} NothingWaiting(ops: seq<Operation>)
    ensures WaitingBytes(ops, []) == 0
  {
    if ops != [] {
      NothingWaiting(ops[..|ops| - 1]);
    }
  }

  /** Every recorded task is the one its owner handed over. */
  ghost predicate TasksMatch(ops: seq<Operation>, tasks: seq<FQ.Task>) {
    forall i :: 0 <= i < |ops| && ops[i].task.Some? ==>
      && ops[i].task.value < |tasks|
      && tasks[ops[i].task.value] == FQ.Task(ops[i].task.value, ops[i].event.connectionId, ops[i].event.bytes)
  }

  lemma {:induction false} WaitingIsTally(
    ops: seq<Operation>, tasks: seq<FQ.Task>, status: seq<FQ.Status>, n: nat)
    requires n <= |tasks| == |status| && AllOwned(ops, |tasks|) && TasksMatch(ops, tasks) && Distinct(ops)
    ensures WaitingBytes(ops, status[..n]) == FQ.Tally(FQ.QueuedBytes, tasks[..n], status[..n])
  {
    if n == 0 {
      NothingWaiting(ops);
    } else {
      WaitingIsTally(ops, tasks, status, n - 1);
      assert HasOwner(ops, n - 1);
      var i :| 0 <= i < |ops| && ops[i].task == Some(n - 1);
      forall j | 0 <= j < |ops| && j != i ensures ops[j].task != Some(n - 1) {
        assert if i < j then ops[i].task != ops[j].task else ops[j].task.Some? ==> ops[j].task != ops[i].task;
      }
      WithOwner(ops, status[..n - 1], status[n - 1], i);
      FQ.TallyPush(FQ.QueuedBytes, tasks[..n - 1], status[..n - 1], tasks[n - 1], status[n - 1]);
      assert status[..n - 1] + [status[n - 1]] == status[..n] && tasks[..n - 1] + [tasks[n - 1]] == tasks[..n];
    }
  }

  lemma CoherentTasksMatch(g: State)
    requires OpsFit(g)
    ensures TasksMatch(g.ops, g.fair.tasks)
  {
    forall i | 0 <= i < |g.ops| && g.ops[i].task.Some?
      ensures g.ops[i].task.value < |g.fair.tasks|
      ensures g.fair.tasks[g.ops[i].task.value] ==
              FQ.Task(g.ops[i].task.value, g.ops[i].event.connectionId, g.ops[i].event.bytes)
    {
      assert Coherent(g.fair, g.serial, g.ops[i]);
    }
  }

  lemma WaitingIsCounted(c: Config, g: State)
    requires Inv(c, g) && AllOwned(g.ops, |g.fair.tasks|)
    ensures WaitingBytes(g.ops, g.fair.status) == g.fair.queuedBytes
  {
    CoherentTasksMatch(g);
    WaitingIsTally(g.ops, g.fair.tasks, g.fair.status, |g.fair.tasks|);
    assert g.fair.status[..|g.fair.tasks|] == g.fair.status && g.fair.tasks[..|g.fair.tasks|] == g.fair.tasks;
  }

  // ----- The queue limits hold throughout -----

  lemma StepQuiescent(c: Config, g: State, step: Step)
    requires Inv(c, g) && Enabled(c, g, step) && FO.Quiescent(c.limits, g.fair)
    ensures FO.Quiescent(c.limits, FairAfter(c, g, step))
  {
    match step
    case Enter(i) =>
      FO.ExecuteQuiescent(c.limits, g.fair, FO.Run(g.ops[i].event.connectionId, g.ops[i].event.bytes));
    case Finish(i) => FO.ExecuteQuiescent(c.limits, g.fair, FO.Complete(TaskOf(g, i)));
    case Queue(op) => FO.ExecuteQuiescent(c.limits, g.fair, op);
    case _ =>
  }

  lemma QuiescentNext(c: Config, g: State, step: Step)
    requires Inv(c, g) && Enabled(c, g, step) && FO.Quiescent(c.limits, g.fair)
    ensures FO.Quiescent(c.limits, Apply(c, g, step).fair)
  {
    StepQuiescent(c, g, step);
    NextFair(c, g, step, FairAfter(c, g, step));
  }

  ghost predicate QuiescentStep(c: Config, states: seq<State>, m: nat)
    requires m + 1 < |states|
  {
    FO.Quiescent(c.limits, states[m].fair) ==> FO.Quiescent(c.limits, states[m + 1].fair)
  }

  lemma QuiescentAt(c: Config, states: seq<State>, steps: seq<Step>, m: nat)
    requires |states| == |steps| + 1 && m < |steps| && FollowsAt(c, states, steps, m)
    ensures QuiescentStep(c, states, m)
  {
    if FO.Quiescent(c.limits, states[m].fair) {
      QuiescentNext(c, states[m], steps[m]);
    }
  }

  lemma {:induction false} QuiescentUpTo(c: Config, states: seq<State>, n: nat)
    requires n < |states| && FO.Quiescent(c.limits, states[0].fair)
    requires forall m {:trigger QuiescentStep(c, states, m)} :: 0 <= m < |states| - 1 ==> QuiescentStep(c, states, m)
    ensures FO.Quiescent(c.limits, states[n].fair)
  {
    if n > 0 {
      QuiescentUpTo(c, states, n - 1);
      assert QuiescentStep(c, states, n - 1);
    }
  }

  lemma QuiescentThroughout(c: Config, states: seq<State>, steps: seq<Step>, n: nat)
    requires IsRun(c, states, steps) && Starting(states[0]) && n < |states|
    ensures FO.Quiescent(c.limits, states[n].fair)
  {
    FI.InitialHolds(c.limits);
    forall m | 0 <= m < |states| - 1 ensures QuiescentStep(c, states, m) {
      QuiescentAt(c, states, steps, m);
    }
    QuiescentUpTo(c, states, n);
  }

  /**
    In every run from a process start the fair queue knows each operation's payload: every task it holds belongs to
    exactly one operation and carries that event's connection and payload size, and the payloads of the operations
    still waiting add up to `queuedBytes`, which never exceeds the limit.
   */
  lemma WaitingPayloads(c: Config, states: seq<State>, steps: seq<Step>, n: nat)
    requires IsRun(c, states, steps) && Starting(states[0]) && n < |states|
    ensures var g := states[n];
            && AllOwned(g.ops, |g.fair.tasks|) && Distinct(g.ops) && TasksMatch(g.ops, g.fair.tasks)
            && WaitingBytes(g.ops, g.fair.status) == g.fair.queuedBytes <= c.limits.maxQueuedBytes
  {
    RunKeepsInv(c, states, steps, n);
    OwnedThroughout(c, states, steps, n);
    QuiescentThroughout(c, states, steps, n);
    CoherentTasksMatch(states[n]);
    WaitingIsCounted(c, states[n]);
  }

  /**
    An operation is turned away on entering exactly when the queue has stopped accepting, or it would have to wait
    and the waiting operations leave no room for one more, for one more of its connection, or for its payload.
   */
  lemma EntryIsRefusedIff(c: Config, states: seq<State>, steps: seq<Step>, n: nat, i: nat)
    requires IsRun(c, states, steps) && Starting(states[0]) && n < |steps| && steps[n] == Enter(i)
    ensures var (g, g') := (states[n], states[n + 1]);
            && i < |g.ops| == |g'.ops| && g'.ops[i].event == g.ops[i].event && g'.ops[i].task.Some?
            && (StatusOf(g'.fair, g'.ops[i]).Rejected? <==>
                  || !g.fair.accepting
                  || (&& (|| g.fair.active >= c.limits.maxGlobalActive
                          || FQ.ActiveOf(g.fair, g.ops[i].event.connectionId) >= c.limits.maxConnectionActive
                          || g.fair.queued > 0)
                      && (|| g.fair.queued + 1 > c.limits.maxGlobalQueued
                          || |FQ.QueueOf(g.fair, g.ops[i].event.connectionId)| + 1 > c.limits.maxConnectionQueued
                          || WaitingBytes(g.ops, g.fair.status) + g.ops[i].event.bytes > c.limits.maxQueuedBytes)))
  {
    assert FollowsAt(c, states, steps, n);
    WaitingPayloads(c, states, steps, n);
    FE.AdmissionIff(c.limits, states[n].fair, states[n].ops[i].event.connectionId, states[n].ops[i].event.bytes);
    FE.QueuedIsNatural(c.limits, states[n].fair);
  }

  // ----- Arrivals -----

  /** Answered without a claim, and never to be worked on. */
  predicate TurnedBack(op: Operation) {
    (op.outer.Returning? || op.outer.Closed?) && op.inner.Idle? && op.task.None? && !op.claimed && !op.sent
  }

  lemma LocalTurnedBack(g: State, step: Step, op: Operation)
    requires IsLocal(step) && LocalEnabled(g, step, op)
    ensures !TurnedBack(op)
  {
  }

  lemma LocalStepTurnedBack(c: Config, g: State, step: Step, fair': FQ.State, i: nat)
    requires Sound(g) && IsLocal(step) && Enabled(c, g, step) && i < |g.ops| && TurnedBack(g.ops[i])
    ensures var ops' := Next(c, g, step, fair').ops; i < |ops'| && TurnedBack(ops'[i])
  {
    LocalTurnedBack(g, step, g.ops[step.i]);
    LocalStepAfter(c, g, step, fair');
  }

  lemma StepTurnedBack(c: Config, g: State, step: Step, fair': FQ.State, i: nat)
    requires Sound(g) && Enabled(c, g, step) && i < |g.ops| && TurnedBack(g.ops[i])
    ensures var ops' := Next(c, g, step, fair').ops; i < |ops'| && TurnedBack(ops'[i])
  {
    if IsLocal(step) {
      LocalStepTurnedBack(c, g, step, fair', i);
    } else {
      assert Coherent(g.fair, g.serial, g.ops[i]);
    }
  }

  ghost predicate TurnedBackStep(states: seq<State>, m: nat, i: nat)
    requires m + 1 < |states|
  {
    i < |states[m].ops| && TurnedBack(states[m].ops[i]) ==>
      i < |states[m + 1].ops| && TurnedBack(states[m + 1].ops[i])
  }

  lemma TurnedBackAt(c: Config, states: seq<State>, steps: seq<Step>, m: nat, i: nat)
    requires |states| == |steps| + 1 && m < |steps| && FollowsAt(c, states, steps, m)
    ensures TurnedBackStep(states, m, i)
  {
    if i < |states[m].ops| && TurnedBack(states[m].ops[i]) {
      StepTurnedBack(c, states[m], steps[m], FairAfter(c, states[m], steps[m]), i);
    }
  }

  lemma {:induction false} TurnedBackFrom(states: seq<State>, a: nat, b: nat, i: nat)
    requires a <= b < |states| && i < |states[a].ops| && TurnedBack(states[a].ops[i])
    requires forall m {:trigger TurnedBackStep(states, m, i)} :: 0 <= m < |states| - 1 ==> TurnedBackStep(states, m, i)
    ensures i < |states[b].ops| && TurnedBack(states[b].ops[i])
    decreases b - a
  {
    if a < b {
      TurnedBackFrom(states, a, b - 1, i);
      assert TurnedBackStep(states, b - 1, i);
    }
  }

  /** A new operation carries the event it was given; if that is valid it goes on to claim it. */
  lemma ArrivalRecords(c: Config, states: seq<State>, steps: seq<Step>, n: nat)
    requires IsRun(c, states, steps) && n < |steps| && steps[n].Handle? && steps[n].key !in states[n].inFlight
    ensures var (g, g', i) := (states[n], states[n + 1], |states[n].ops|);
            && |g'.ops| == i + 1 && g'.ops[..i] == g.ops
            && g'.ops[i].event == steps[n].event && g'.ops[i].inFlightKey == steps[n].key
            && g'.inFlight == g.inFlight[steps[n].key := i]
            && !g'.ops[i].claimed && g'.ops[i].outer == if steps[n].valid then Claiming else Returning
  {
    assert FollowsAt(c, states, steps, n);
  }

  /** An event that fails validation is never claimed, queued or sent, whatever happens afterwards. */
  lemma InvalidIsTurnedBack(c: Config, states: seq<State>, steps: seq<Step>, n: nat, j: nat)
    requires IsRun(c, states, steps) && n < j < |states|
    requires steps[n].Handle? && !steps[n].valid && steps[n].key !in states[n].inFlight
    ensures var i := |states[n].ops|;
            && i < |states[j].ops|
            && !states[j].ops[i].claimed && states[j].ops[i].task.None? && !states[j].ops[i].sent
  {
    var i := |states[n].ops|;
    assert FollowsAt(c, states, steps, n);
    assert TurnedBack(states[n + 1].ops[i]);
    forall m | 0 <= m < |states| - 1 ensures TurnedBackStep(states, m, i) {
      TurnedBackAt(c, states, steps, m, i);
    }
    TurnedBackFrom(states, n + 1, j, i);
  }
}
