/** What each public operation of the fair queue does to its tasks and waiters, in terms of the state alone. */
module FairQueueEffects {
  import opened Wrappers
  import opened Rotation
  import opened FairQueue
  import opened FairQueueInvariant
  import opened FairQueueRuns
  import opened FairQueueOperations
  import opened FairQueueMoves

  // ----- Submission -----

  lemma SubmittedStatus(l: Limits, s: State, c: Connection, bytes: nat)
    requires Inv(l, s)
    ensures var s' := Execute(l, s, Run(c, bytes));
            && |s'.status| == |s.status| + 1
            && (s'.status[|s.status|].Rejected? <==> !Admits(l, s, c, bytes))
  {
    SubmitKeeps(l, s, c, bytes);
    if Admits(l, s, c, bytes) {
      DrainOnlyStarts(l, Submit(l, s, c, bytes));
    }
  }

  /**
    Admission, exactly. A submitted task is taken unless the queue has stopped accepting, and except when it would
    have to wait and one of the three limits leaves no room for it.
   */
  lemma AdmissionIff(l: Limits, s: State, c: Connection, bytes: nat)
    requires Inv(l, s)
    ensures var s' := Execute(l, s, Run(c, bytes));
            && |s'.status| == |s.status| + 1 && s'.tasks == s.tasks + [Task(|s.tasks|, c, bytes)]
            && (!s'.status[|s.status|].Rejected? <==>
                  && s.accepting
                  && (|| (s.active < l.maxGlobalActive && ActiveOf(s, c) < l.maxConnectionActive && s.queued == 0)
                      || (s.queued + 1 <= l.maxGlobalQueued && |QueueOf(s, c)| + 1 <= l.maxConnectionQueued &&
                          s.queuedBytes + bytes <= l.maxQueuedBytes)))
  {
    SubmittedStatus(l, s, c, bytes);
    RunMoves(l, s, c, bytes);
    QueuedIsNatural(l, s);
  }

  lemma QueuedIsNatural(l: Limits, s: State)
    requires Inv(l, s)
    ensures s.queued >= 0 && s.queuedBytes >= 0
  {
  }

  /** A rejection leaves everything but the record as it was. */
  lemma RejectionIsHarmless(l: Limits, s: State, c: Connection, bytes: nat)
    requires Inv(l, s)
    requires var s' := Execute(l, s, Run(c, bytes)); |s'.status| == |s.status| + 1 && s'.status[|s.status|].Rejected?
    ensures var s' := Execute(l, s, Run(c, bytes));
            && s'.queues == s.queues && s'.rotation == s.rotation && s'.rotationIndex == s.rotationIndex
            && s'.active == s.active && s'.queued == s.queued && s'.queuedBytes == s.queuedBytes
            && s'.activeByConnection == s.activeByConnection && s'.started == s.started
            && s'.status[..|s.status|] == s.status
  {
    SubmittedStatus(l, s, c, bytes);
  }

  // ----- Completion, expiry, cancellation -----

  /** A completion finishes its task; of the others some start, and nothing else happens to them. */
  lemma CompletionMeans(l: Limits, s: State, id: nat)
    requires Inv(l, s) && id < |s.tasks| && s.status[id].Active?
    ensures var s' := Execute(l, s, Complete(id));
            && |s'.status| == |s.status| && s'.status[id] == Finished
            && (forall i :: 0 <= i < |s.status| && i != id ==>
                  s'.status[i] == s.status[i] || (s.status[i] == Queued && s'.status[i] == Active))
  {
    ReleaseKeeps(l, s, id);
    DrainOnlyStarts(l, Release(s, id));
  }

  /** A wait timer expires its task if that is still queued, and changes no other. */
  lemma TimerMeans(l: Limits, s: State, id: nat)
    requires Inv(l, s) && id < |s.tasks|
    ensures var s' := Execute(l, s, TimeOut(id));
            s'.status == if s.status[id] == Queued then s.status[id := Expired] else s.status
  {
    TimeOutRecord(l, s, id);
    QueuedIffInQueue(l, s, id);
    if s.status[id].Queued? {
      UnqueueFrame(s, s.tasks[id]);
    }
  }

  /** Cancelling rejects exactly the queued tasks and leaves nothing queued. */
  lemma CancelMeans(l: Limits, s: State)
    requires Inv(l, s)
    ensures var s' := Execute(l, s, CancelQueued);
            && |s'.status| == |s.status| && s'.queued == 0 && s'.queuedBytes == 0 && s'.rotation == []
            && s'.active == s.active && s'.activeByConnection == s.activeByConnection
            && forall i :: 0 <= i < |s.status| ==>
                 s'.status[i] == if s.status[i] == Queued then Cancelled else s.status[i]
  {
  }

  // ----- Stopping -----

  /** Stopping touches no task, and is for good: every later submission is rejected. */
  lemma StopMeans(l: Limits, s: State)
    requires Inv(l, s)
    ensures var s' := Execute(l, s, StopAccepting);
            !s'.accepting && s'.status == s.status && s'.queues == s.queues && s'.active == s.active
  {
  }

  lemma StaysStopped(l: Limits, s: State, op: Operation)
    requires Inv(l, s) && Possible(s, op) && !s.accepting
    ensures !Execute(l, s, op).accepting
  {
    var states, steps := OperationIsRun(l, s, op);
    StoppedThroughout(l, states, steps, |steps|);
  }

  lemma {:induction false} StoppedThroughout(l: Limits, states: seq<State>, steps: seq<Step>, i: nat)
    requires IsRun(l, states, steps) && i < |states| && !states[0].accepting
    ensures !states[i].accepting
  {
    if i > 0 {
      StoppedThroughout(l, states, steps, i - 1);
      RunShrinks(l, states, steps, i - 1);
    }
  }

  ghost predicate StaysStoppedAt(states: seq<State>, m: nat)
    requires m + 1 < |states|
  {
    !states[m].accepting ==> !states[m + 1].accepting
  }

  lemma {:induction false} StoppedFrom(states: seq<State>, i: nat, j: nat)
    requires i <= j < |states| && !states[i].accepting
    requires forall m {:trigger StaysStoppedAt(states, m)} :: 0 <= m < |states| - 1 ==> StaysStoppedAt(states, m)
    ensures !states[j].accepting
    decreases j - i
  {
    if i < j {
      StoppedFrom(states, i, j - 1);
      assert StaysStoppedAt(states, j - 1);
    }
  }

  lemma StoppedHistory(l: Limits, states: seq<State>, ops: seq<Operation>, i: nat, j: nat)
    requires IsHistory(l, states, ops) && i <= j < |states| && !states[i].accepting
    ensures !states[j].accepting
  {
    forall m | 0 <= m < |states| - 1 ensures StaysStoppedAt(states, m) {
      assert OperationAt(l, states, ops, m);
      if !states[m].accepting {
        StaysStopped(l, states[m], ops[m]);
      }
    }
    StoppedFrom(states, i, j);
  }

  /** In every history, what is submitted after `stopAccepting` is rejected. */
  lemma StopIsForGood(l: Limits, states: seq<State>, ops: seq<Operation>, i: nat, j: nat)
    requires IsHistory(l, states, ops) && i < j < |ops| && ops[i] == StopAccepting && ops[j].Run?
    ensures |states[j + 1].status| == |states[j].status| + 1 && states[j + 1].status[|states[j].status|] == Rejected
  {
    assert OperationAt(l, states, ops, i);
    StopMeans(l, states[i]);
    StoppedHistory(l, states, ops, i + 1, j);
    assert OperationAt(l, states, ops, j);
    AdmissionIff(l, states[j], ops[j].c, ops[j].bytes);
  }

  // ----- Waiters -----

  /** Registered and not yet answered, or answered. */
  function Waiters(s: State): set<nat> {
    s.idleWaiters + s.woken
  }

  lemma TakeAtWaiters(s: State, p: nat)
    requires p < |s.rotation| && QueueOf(s, s.rotation[p]) != []
    ensures TakeAt(s, p).idleWaiters == s.idleWaiters && TakeAt(s, p).woken == s.woken
  {
  }

  lemma DispatchWaiters(l: Limits, s: State)
    requires Inv(l, s) && CanDispatch(l, s)
    ensures Dispatch(l, s).idleWaiters == s.idleWaiters && Dispatch(l, s).woken == s.woken
  {
    DispatchIsTake(l, s);
    TakeAtWaiters(s, Position(s, Pick(l, s, 0).value));
  }

  lemma {:induction false} DrainWaiters(l: Limits, s: State)
    requires Inv(l, s)
    ensures Drain(l, s).idleWaiters == s.idleWaiters && Drain(l, s).woken == s.woken
    decreases s.queued
  {
    if CanDispatch(l, s) {
      DispatchKeeps(l, s);
      DispatchLess(l, s);
      DispatchWaiters(l, s);
      DrainWaiters(l, Dispatch(l, s));
    }
  }

  lemma UnqueueWaiters(s: State, task: Task)
    requires task in QueueOf(s, task.connectionId)
    ensures Unqueue(s, task).idleWaiters == s.idleWaiters && Unqueue(s, task).woken == s.woken
  {
  }

  lemma CheckIdleWaiters(l: Limits, s: State)
    requires Inv(l, s)
    ensures Waiters(Apply(l, s, CheckIdleStep)) == Waiters(s)
  {
  }

  lemma RunWaiters(l: Limits, s: State, c: Connection, bytes: nat)
    requires Inv(l, s)
    ensures Waiters(Execute(l, s, Run(c, bytes))) == Waiters(s)
  {
    SubmitKeeps(l, s, c, bytes);
    if Admits(l, s, c, bytes) {
      DrainWaiters(l, Submit(l, s, c, bytes));
    }
  }

  lemma CompleteWaiters(l: Limits, s: State, id: nat)
    requires Inv(l, s) && id < |s.tasks| && s.status[id].Active?
    ensures Waiters(Execute(l, s, Complete(id))) == Waiters(s)
  {
    ReleaseKeeps(l, s, id);
    DrainWaiters(l, Release(s, id));
    CheckIdleWaiters(l, Drain(l, Release(s, id)));
  }

  lemma ExpireWaiters(s: State, id: nat)
    requires Recorded(s) && id < |s.tasks|
    ensures Waiters(Expire(s, id)) == Waiters(s)
  {
    if s.tasks[id] in QueueOf(s, s.tasks[id].connectionId) {
      UnqueueWaiters(s, s.tasks[id]);
    }
  }

  lemma TimeOutWaiters(l: Limits, s: State, id: nat)
    requires Inv(l, s) && id < |s.tasks|
    ensures Waiters(Execute(l, s, TimeOut(id))) == Waiters(s)
  {
    TimeOutIs(l, s, id);
    ExpireWaiters(s, id);
    CheckIdleWaiters(l, Expire(s, id));
  }

  lemma ShutdownWaiters(l: Limits, s: State, op: Operation)
    requires Inv(l, s) && (op.StopAccepting? || op.CancelQueued?)
    ensures Waiters(Execute(l, s, op)) == Waiters(s)
  {
    if op.StopAccepting? {
      CheckIdleWaiters(l, Apply(l, s, StopStep));
    } else {
      CheckIdleWaiters(l, Apply(l, s, CancelStep));
    }
  }

  lemma WaitingWaiters(l: Limits, s: State, op: Operation)
    requires Inv(l, s) && (op.WaitForIdle? || op.GiveUpWaiting?)
    ensures Waiters(Execute(l, s, op)) ==
            if op.WaitForIdle? then Waiters(s) + {op.waiter} else s.idleWaiters - {op.waiter} + s.woken
  {
  }

  /** Only its own timeout takes a waiter off, and nothing but waiting puts one on. */
  lemma ExecuteWaiters(l: Limits, s: State, op: Operation)
    requires Inv(l, s) && Possible(s, op)
    ensures Waiters(Execute(l, s, op)) ==
            if op.WaitForIdle? then Waiters(s) + {op.waiter}
            else if op.GiveUpWaiting? then s.idleWaiters - {op.waiter} + s.woken
            else Waiters(s)
  {
    match op
    case Run(c, bytes) => RunWaiters(l, s, c, bytes);
    case Complete(id) => CompleteWaiters(l, s, id);
    case TimeOut(id) => TimeOutWaiters(l, s, id);
    case StopAccepting => ShutdownWaiters(l, s, op);
    case CancelQueued => ShutdownWaiters(l, s, op);
    case _ => WaitingWaiters(l, s, op);
  }

  /** Operation `m` keeps the waiter registered or answered, or keeps it neither. */
  ghost predicate MindsAt(states: seq<State>, ops: seq<Operation>, m: nat, waiter: nat)
    requires m < |ops| && |states| == |ops| + 1
  {
    && (ops[m] != GiveUpWaiting(waiter) && waiter in Waiters(states[m]) ==> waiter in Waiters(states[m + 1]))
    && (ops[m] != WaitForIdle(waiter) && waiter !in Waiters(states[m]) ==> waiter !in Waiters(states[m + 1]))
  }

  ghost predicate MindsThroughout(states: seq<State>, ops: seq<Operation>, waiter: nat)
    requires |states| == |ops| + 1
  {
    forall m {:trigger MindsAt(states, ops, m, waiter)} :: 0 <= m < |ops| ==> MindsAt(states, ops, m, waiter)
  }

  lemma HistoryMinds(l: Limits, states: seq<State>, ops: seq<Operation>, waiter: nat)
    requires IsHistory(l, states, ops)
    ensures MindsThroughout(states, ops, waiter)
  {
    forall m | 0 <= m < |ops| ensures MindsAt(states, ops, m, waiter) {
      assert OperationAt(l, states, ops, m);
      ExecuteWaiters(l, states[m], ops[m]);
    }
  }

  lemma {:induction false} MindedFrom(states: seq<State>, ops: seq<Operation>, i: nat, j: nat, waiter: nat)
    requires |states| == |ops| + 1 && i <= j < |states| && MindsThroughout(states, ops, waiter)
    ensures (forall k :: i <= k < j ==> ops[k] != GiveUpWaiting(waiter)) && waiter in Waiters(states[i]) ==>
              waiter in Waiters(states[j])
    ensures (forall k :: i <= k < j ==> ops[k] != WaitForIdle(waiter)) && waiter !in Waiters(states[i]) ==>
              waiter !in Waiters(states[j])
    decreases j - i
  {
    if i < j {
      MindedFrom(states, ops, i, j - 1, waiter);
      assert MindsAt(states, ops, j - 1, waiter);
    }
  }

  /** `waitForIdle` answers at once when idle and registers the waiter otherwise. */
  lemma WaitMeans(l: Limits, s: State, waiter: nat)
    requires Inv(l, s)
    ensures var s' := Execute(l, s, WaitForIdle(waiter));
            && (s.active == 0 && s.queued == 0 ==> waiter in s'.woken)
            && (!(s.active == 0 && s.queued == 0) ==> waiter in s'.idleWaiters)
            && s'.status == s.status
  {
  }

  /** In every history a waiter that does not give up has been answered whenever nothing is active or queued. */
  lemma WaiterIsAnswered(l: Limits, states: seq<State>, ops: seq<Operation>, i: nat, j: nat, waiter: nat)
    requires IsHistory(l, states, ops) && i < j < |states| && ops[i] == WaitForIdle(waiter)
    requires forall k :: i < k < j ==> ops[k] != GiveUpWaiting(waiter)
    requires states[j].active == 0 && states[j].queued == 0
    ensures waiter in states[j].woken
  {
    assert OperationAt(l, states, ops, i);
    WaitMeans(l, states[i], waiter);
    HistoryMinds(l, states, ops, waiter);
    MindedFrom(states, ops, i + 1, j, waiter);
    HistoryIsQuiescent(l, states, ops, j);
  }

  /** A waiter that gave up before it was answered stays unanswered, unless it waits again. */
  lemma GivenUpIsNotAnswered(l: Limits, states: seq<State>, ops: seq<Operation>, i: nat, j: nat, waiter: nat)
    requires IsHistory(l, states, ops) && i < j < |states| && ops[i] == GiveUpWaiting(waiter)
    requires waiter !in states[i].woken && forall k :: i < k < j ==> ops[k] != WaitForIdle(waiter)
    ensures waiter !in states[j].woken
  {
    assert OperationAt(l, states, ops, i);
    ExecuteWaiters(l, states[i], ops[i]);
    HistoryMinds(l, states, ops, waiter);
    MindedFrom(states, ops, i + 1, j, waiter);
  }
}
