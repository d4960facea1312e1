/** Every step of the fair queue keeps its invariant. */
module FairQueueInvariant {
  import opened Wrappers
  import opened Rotation
  import opened FairQueue

  lemma InitialHolds(l: Limits)
    ensures Inv(l, INITIAL)
  {
  }

  // ----- The counters, when the record grows or one entry changes -----

  lemma PushCounted(s: State, s': State, task: Task, st: Status)
    requires Recorded(s) && Counted(s) && Recorded(s') && !st.Active?
    requires s'.tasks == s.tasks + [task] && s'.status == s.status + [st]
    requires s'.active == s.active && s'.activeByConnection == s.activeByConnection
    requires s'.queued == s.queued + Weigh(CountQueued, task, st)
    requires s'.queuedBytes == s.queuedBytes + Weigh(QueuedBytes, task, st)
    ensures Counted(s')
  {
    TallyPush(CountActive, s.tasks, s.status, task, st);
    TallyPush(CountQueued, s.tasks, s.status, task, st);
    TallyPush(QueuedBytes, s.tasks, s.status, task, st);
    forall d ensures ActiveOf(s', d) == Tally(CountActiveOf(d), s'.tasks, s'.status) {
      assert ActiveOf(s, d) == Tally(CountActiveOf(d), s.tasks, s.status);
      TallyPush(CountActiveOf(d), s.tasks, s.status, task, st);
    }
  }

  lemma SetCounted(s: State, s': State, id: nat, st: Status)
    requires Recorded(s) && Counted(s) && Recorded(s') && id < |s.tasks|
    requires s'.tasks == s.tasks && s'.status == s.status[id := st]
    requires var task, was := s.tasks[id], s.status[id];
             s'.active == s.active - Weigh(CountActive, task, was) + Weigh(CountActive, task, st) &&
             s'.queued == s.queued - Weigh(CountQueued, task, was) + Weigh(CountQueued, task, st) &&
             s'.queuedBytes == s.queuedBytes - Weigh(QueuedBytes, task, was) + Weigh(QueuedBytes, task, st)
    requires forall d :: ActiveOf(s', d)
                      == ActiveOf(s, d) - Weigh(CountActiveOf(d), s.tasks[id], s.status[id])
                         + Weigh(CountActiveOf(d), s.tasks[id], st)
    requires forall c :: c in s'.activeByConnection ==> s'.activeByConnection[c] > 0
    ensures Counted(s')
  {
    TallySet(CountActive, s.tasks, s.status, id, st);
    TallySet(CountQueued, s.tasks, s.status, id, st);
    TallySet(QueuedBytes, s.tasks, s.status, id, st);
    forall d ensures ActiveOf(s', d) == Tally(CountActiveOf(d), s'.tasks, s'.status) {
      assert ActiveOf(s, d) == Tally(CountActiveOf(d), s.tasks, s.status);
      TallySet(CountActiveOf(d), s.tasks, s.status, id, st);
    }
  }

  /** The steps on queues and rotation leave all this alone. */
  predicate SameRecord(s: State, s': State) {
    s'.tasks == s.tasks && s'.status == s.status && s'.settlements == s.settlements && s'.started == s.started &&
    s'.active == s.active && s'.activeByConnection == s.activeByConnection
  }

  // ----- Submit -----

  lemma SubmitKeeps(l: Limits, s: State, c: Connection, bytes: nat)
    requires Inv(l, s)
    ensures Inv(l, Submit(l, s, c, bytes))
  {
    SubmitShaped(l, s, c, bytes);
    SubmitStarted(l, s, c, bytes);
    SubmitWaiting(l, s, c, bytes);
    SubmitCounted(l, s, c, bytes);
  }

  lemma SubmitCounted(l: Limits, s: State, c: Connection, bytes: nat)
    requires Recorded(s) && Counted(s) && WithinCaps(l, s) && Recorded(Submit(l, s, c, bytes))
    ensures Counted(Submit(l, s, c, bytes)) && WithinCaps(l, Submit(l, s, c, bytes))
  {
    var s' := Submit(l, s, c, bytes);
    PushCounted(s, s', Task(|s.tasks|, c, bytes), if Admits(l, s, c, bytes) then Queued else Rejected);
    assert forall d :: ActiveOf(s', d) == ActiveOf(s, d);
  }

  lemma SubmitWaiting(l: Limits, s: State, c: Connection, bytes: nat)
    requires Recorded(s) && QueuesHoldWaiting(s) && Recorded(Submit(l, s, c, bytes))
    ensures QueuesHoldWaiting(Submit(l, s, c, bytes))
  {
    var s', task := Submit(l, s, c, bytes), Task(|s.tasks|, c, bytes);
    var admitted := Admits(l, s, c, bytes);
    assert forall d :: QueueOf(s', d) == QueueOf(s, d) + if admitted && c == d then [task] else [];
    PushWaiting(s, s', task, if admitted then Queued else Rejected);
  }

  lemma PushWaiting(s: State, s': State, task: Task, st: Status)
    requires Recorded(s) && QueuesHoldWaiting(s) && Recorded(s')
    requires s'.tasks == s.tasks + [task] && s'.status == s.status + [st]
    requires forall d :: QueueOf(s', d)
                      == QueueOf(s, d) + if st.Queued? && task.connectionId == d then [task] else []
    ensures QueuesHoldWaiting(s')
  {
    forall d ensures QueueOf(s', d) == Waiting(s'.tasks, s'.status, d) {
      assert QueueOf(s, d) == Waiting(s.tasks, s.status, d);
      WaitingPush(s.tasks, s.status, task, st, d);
    }
  }

  lemma SubmitShaped(l: Limits, s: State, c: Connection, bytes: nat)
    requires Shaped(s)
    ensures Shaped(Submit(l, s, c, bytes))
  {
  }

  lemma SubmitStarted(l: Limits, s: State, c: Connection, bytes: nat)
    requires Recorded(s) && StartedInOrder(s)
    ensures Recorded(Submit(l, s, c, bytes)) && StartedInOrder(Submit(l, s, c, bytes))
  {
    PushStarted(s, Submit(l, s, c, bytes), Task(|s.tasks|, c, bytes));
  }

  lemma PushStarted(s: State, s': State, task: Task)
    requires Recorded(s) && StartedInOrder(s) && Recorded(s') && task.id == |s.tasks|
    requires s'.tasks == s.tasks + [task] && s'.started == s.started
    requires s'.status == s.status + [Queued] || s'.status == s.status + [Rejected]
    ensures StartedInOrder(s')
  {
    forall k | 0 <= k < |s'.started| ensures StartedRecorded(s', s'.started[k]) {
      assert StartedRecorded(s, s.started[k]);
    }
  }

  // ----- Taking a task out of a queue -----

  lemma RemoveRotationShaped(s: State, c: Connection)
    requires NoDuplicates(s.rotation) && InRange(s.rotation, s.rotationIndex) && c in s.rotation
    requires forall d :: d in s.rotation <==> d in s.queues
    requires forall d :: d in s.queues && d != c ==> s.queues[d] != []
    ensures Shaped(RemoveRotation(s, c))
    ensures forall d :: d != c ==> QueueOf(RemoveRotation(s, c), d) == QueueOf(s, d)
    ensures QueueOf(RemoveRotation(s, c), c) == []
  {
    var i := IndexOf(s.rotation, c);
    RemoveAtNoDuplicates(s.rotation, i);
    RemovalKeepsCycle(s.rotation, s.rotationIndex, i,
      if s.rotationIndex <= i then i - s.rotationIndex else |s.rotation| - s.rotationIndex + i);
  }

  lemma TakeAtShaped(s: State, p: nat)
    requires Shaped(s) && p < |s.rotation|
    ensures QueueOf(s, s.rotation[p]) != [] && Shaped(TakeAt(s, p))
    ensures forall d :: QueueOf(TakeAt(s, p), d)
                     == if d == s.rotation[p] then QueueOf(s, d)[1..] else QueueOf(s, d)
  {
    var c := s.rotation[p];
    assert c in s.rotation;
    assert c in s.queues;
    var shifted := s.(rotationIndex := Advance(|s.rotation|, p), queues := s.queues[c := QueueOf(s, c)[1..]]);
    if |QueueOf(s, c)| == 1 {
      RemoveRotationShaped(shifted, c);
    }
  }

  /** The queues after one queued task has left its queue for good. */
  lemma LeaveQueue(s: State, id: nat, k: nat, st: Status, s': State)
    requires Recorded(s) && QueuesHoldWaiting(s) && id < |s.tasks| && s.status[id].Queued? && !st.Queued?
    requires k < |QueueOf(s, s.tasks[id].connectionId)|
    requires QueueOf(s, s.tasks[id].connectionId)[k] == s.tasks[id]
    requires s'.tasks == s.tasks && s'.status == s.status[id := st] && Recorded(s')
    requires forall d :: QueueOf(s', d)
                      == if d == s.tasks[id].connectionId then RemoveAt(QueueOf(s, d), k) else QueueOf(s, d)
    ensures QueuesHoldWaiting(s')
  {
    forall d ensures QueueOf(s', d) == Waiting(s'.tasks, s'.status, d) {
      assert QueueOf(s, d) == Waiting(s.tasks, s.status, d);
      if d == s.tasks[id].connectionId {
        WaitingRemoved(s.tasks, s.status, d, k, st);
      } else {
        WaitingUntouched(s.tasks, s.status, d, id, st);
      }
    }
  }

  // ----- Dispatch -----

  /** No task queued on the same connection was submitted before this one. */
  ghost predicate IsOldest(s: State, task: Task)
    requires |s.tasks| == |s.status|
  {
    forall i | 0 <= i < |s.tasks| && s.status[i].Queued? && s.tasks[i].connectionId == task.connectionId ::
      task.id <= i
  }

  /** The task a dispatch starts: the oldest one queued on the chosen connection. */
  function NextTask(l: Limits, s: State): (task: Task)
    requires Inv(l, s) && CanDispatch(l, s)
    ensures task.id < |s.tasks| && s.tasks[task.id] == task && s.status[task.id].Queued?
    ensures task.connectionId == NextConnection(l, s)
    ensures QueueOf(s, task.connectionId) != [] && QueueOf(s, task.connectionId)[0] == task
    ensures IsOldest(s, task)
  {
    var c := NextConnection(l, s);
    assert c in s.queues by {
      CycleMembers(s.rotation, s.rotationIndex, c);
    }
    OldestFirst(l, s, c);
    QueueOf(s, c)[0]
  }

  lemma OldestFirst(l: Limits, s: State, c: Connection)
    requires Inv(l, s) && c in s.queues
    ensures var task := QueueOf(s, c)[0];
            task.id < |s.tasks| && s.tasks[task.id] == task && s.status[task.id].Queued? && task.connectionId == c
    ensures IsOldest(s, QueueOf(s, c)[0])
  {
    assert QueueOf(s, c) == Waiting(s.tasks, s.status, c);
    WaitingSound(s.tasks, s.status, c, 0);
    forall i | 0 <= i < |s.tasks| && s.status[i].Queued? && s.tasks[i].connectionId == c
      ensures QueueOf(s, c)[0].id <= i
    {
      var k := WaitingComplete(s.tasks, s.status, i);
      if k > 0 {
        WaitingIncreasing(s.tasks, s.status, c, 0, k);
      }
    }
  }

  lemma DispatchIsTake(l: Limits, s: State)
    requires Inv(l, s) && CanDispatch(l, s)
    ensures s.rotation[Position(s, Pick(l, s, 0).value)] == NextConnection(l, s)
    ensures QueueOf(s, NextConnection(l, s)) != []
    ensures Dispatch(l, s) == MarkStarted(TakeAt(s, Position(s, Pick(l, s, 0).value)), NextTask(l, s))
  {
  }

  lemma DispatchKeeps(l: Limits, s: State)
    requires Inv(l, s) && CanDispatch(l, s)
    ensures Inv(l, Dispatch(l, s))
  {
    var p := Position(s, Pick(l, s, 0).value);
    DispatchIsTake(l, s);
    TakeAtShaped(s, p);
    TakeAtFrame(s, p);
    StartKeeps(l, s, TakeAt(s, p), NextTask(l, s));
  }

  lemma TakeAtFrame(s: State, p: nat)
    requires p < |s.rotation| && QueueOf(s, s.rotation[p]) != []
    ensures SameRecord(s, TakeAt(s, p))
    ensures TakeAt(s, p).queued == s.queued && TakeAt(s, p).queuedBytes == s.queuedBytes
    ensures TakeAt(s, p).accepting == s.accepting && TakeAt(s, p).woken == s.woken
  {
  }

  lemma StartKeeps(l: Limits, s: State, taken: State, task: Task)
    requires Inv(l, s) && Shaped(taken) && SameRecord(s, taken)
    requires taken.queued == s.queued && taken.queuedBytes == s.queuedBytes
    requires s.active < l.maxGlobalActive && BelowCap(l, s, task.connectionId)
    requires task.id < |s.tasks| && s.tasks[task.id] == task && s.status[task.id].Queued? && IsOldest(s, task)
    requires QueueOf(s, task.connectionId) != [] && QueueOf(s, task.connectionId)[0] == task
    requires forall d :: QueueOf(taken, d) == if d == task.connectionId then QueueOf(s, d)[1..] else QueueOf(s, d)
    ensures Inv(l, MarkStarted(taken, task))
  {
    StartQueues(s, taken, task);
    DispatchCounted(l, s, task, MarkStarted(taken, task));
    DispatchStarted(l, s, task, MarkStarted(taken, task));
  }

  lemma StartQueues(s: State, taken: State, task: Task)
    requires Recorded(s) && QueuesHoldWaiting(s) && Shaped(taken)
    requires task.id < |s.tasks| && s.tasks[task.id] == task && s.status[task.id].Queued?
    requires QueueOf(s, task.connectionId) != [] && QueueOf(s, task.connectionId)[0] == task
    requires SameRecord(s, taken)
    requires forall d :: QueueOf(taken, d) == if d == task.connectionId then QueueOf(s, d)[1..] else QueueOf(s, d)
    ensures var s' := MarkStarted(taken, task); Recorded(s') && Shaped(s') && QueuesHoldWaiting(s')
  {
    var s' := MarkStarted(taken, task);
    forall d ensures QueueOf(s', d)
                  == if d == task.connectionId then RemoveAt(QueueOf(s, d), 0) else QueueOf(s, d)
    {
      assert QueueOf(s', d) == QueueOf(taken, d);
    }
    LeaveQueue(s, task.id, 0, Active, s');
  }

  lemma DispatchCounted(l: Limits, s: State, task: Task, s': State)
    requires Inv(l, s) && task.id < |s.tasks| && s.tasks[task.id] == task && s.status[task.id].Queued?
    requires s.active < l.maxGlobalActive && BelowCap(l, s, task.connectionId)
    requires s'.tasks == s.tasks && s'.status == s.status[task.id := Active] && s'.settlements == s.settlements
    requires s'.queued == s.queued - 1 && s'.queuedBytes == s.queuedBytes - task.bytes && s'.active == s.active + 1
    requires s'.activeByConnection
          == s.activeByConnection[task.connectionId := ActiveOf(s, task.connectionId) + 1]
    ensures Recorded(s') && Counted(s') && WithinCaps(l, s')
  {
    assert forall d :: ActiveOf(s', d) == ActiveOf(s, d) + if d == task.connectionId then 1 else 0;
    assert ActiveOf(s, task.connectionId) >= 0;
    SetCounted(s, s', task.id, Active);
  }

  lemma DispatchStarted(l: Limits, s: State, task: Task, s': State)
    requires Inv(l, s) && task.id < |s.tasks| && s.tasks[task.id] == task && s.status[task.id].Queued?
    requires IsOldest(s, task)
    requires s'.tasks == s.tasks && s'.status == s.status[task.id := Active] && s'.settlements == s.settlements
    requires s'.started == s.started + [task]
    ensures Recorded(s') && StartedInOrder(s')
  {
    forall k | 0 <= k < |s'.started| ensures StartedRecorded(s', s'.started[k]) {
      assert k < |s.started| ==> StartedRecorded(s, s.started[k]);
    }
    forall i | 0 <= i < |s'.tasks| && s'.status[i].HasStarted() ensures s'.tasks[i] in s'.started {
      if i == task.id {
        assert s'.started[|s.started|] == task;
      } else {
        assert s.tasks[i] in s.started;
      }
    }
    forall j, k | 0 <= j < k < |s'.started| ensures InOrder(s'.started[j], s'.started[k]) {
      assert InOrder(s.started[j], s.tasks[task.id]);
    }
  }

  // ----- Release -----

  lemma ReleaseKeeps(l: Limits, s: State, id: nat)
    requires Inv(l, s) && id < |s.tasks| && s.status[id].Active?
    ensures Inv(l, Release(s, id))
  {
    var s' := Release(s, id);
    ReleaseCounted(l, s, id);
    forall d ensures QueueOf(s', d) == Waiting(s'.tasks, s'.status, d) {
      assert QueueOf(s, d) == Waiting(s.tasks, s.status, d);
      WaitingUntouched(s.tasks, s.status, d, id, Finished);
    }
    StartedUntouched(s, s');
  }

  lemma ReleaseCounted(l: Limits, s: State, id: nat)
    requires Recorded(s) && Counted(s) && WithinCaps(l, s) && id < |s.tasks| && s.status[id].Active?
    ensures Recorded(Release(s, id)) && Counted(Release(s, id)) && WithinCaps(l, Release(s, id))
  {
    var s' := Release(s, id);
    var c := s.tasks[id].connectionId;
    TallyAtLeast(CountActiveOf(c), s.tasks, s.status, id);
    assert ActiveOf(s, c) == Tally(CountActiveOf(c), s.tasks, s.status);
    assert forall d :: ActiveOf(s', d) == ActiveOf(s, d) - if d == c then 1 else 0;
    SetCounted(s, s', id, Finished);
  }

  /** A step that starts nothing, queues nothing and un-starts nothing keeps the order of starts. */
  lemma StartedUntouched(s: State, s': State)
    requires Recorded(s) && StartedInOrder(s) && Recorded(s')
    requires s'.tasks == s.tasks && s'.started == s.started
    requires forall i :: 0 <= i < |s.tasks| ==> s'.status[i].HasStarted() == s.status[i].HasStarted()
    requires forall i :: 0 <= i < |s.tasks| && s'.status[i].Queued? ==> s.status[i].Queued?
    ensures StartedInOrder(s')
  {
    forall k | 0 <= k < |s'.started| ensures StartedRecorded(s', s'.started[k]) {
      assert StartedRecorded(s, s.started[k]);
    }
  }

  // ----- Expire -----

  lemma QueuedIffInQueue(l: Limits, s: State, id: nat)
    requires Inv(l, s) && id < |s.tasks|
    ensures s.tasks[id] in QueueOf(s, s.tasks[id].connectionId) <==> s.status[id].Queued?
  {
    var c := s.tasks[id].connectionId;
    assert QueueOf(s, c) == Waiting(s.tasks, s.status, c);
    if s.tasks[id] in QueueOf(s, c) {
      WaitingSound(s.tasks, s.status, c, PlaceOf(QueueOf(s, c), s.tasks[id]));
    }
    if s.status[id].Queued? {
      var k := WaitingComplete(s.tasks, s.status, id);
    }
  }

  lemma ExpireKeeps(l: Limits, s: State, id: nat)
    requires Inv(l, s) && id < |s.tasks|
    ensures Inv(l, Expire(s, id))
  {
    QueuedIffInQueue(l, s, id);
    if s.status[id].Queued? {
      UnqueueShaped(s, s.tasks[id]);
      UnqueueFrame(s, s.tasks[id]);
      ExpiredKeeps(l, s, Unqueue(s, s.tasks[id]), id, PlaceOf(QueueOf(s, s.tasks[id].connectionId), s.tasks[id]));
    }
  }

  lemma UnqueueFrame(s: State, task: Task)
    requires task in QueueOf(s, task.connectionId)
    ensures SameRecord(s, Unqueue(s, task))
    ensures Unqueue(s, task).queued == s.queued - 1
    ensures Unqueue(s, task).queuedBytes == s.queuedBytes - task.bytes
  {
  }

  lemma ExpiredKeeps(l: Limits, s: State, shorter: State, id: nat, k: nat)
    requires Inv(l, s) && Shaped(shorter) && id < |s.tasks| && s.status[id].Queued? && SameRecord(s, shorter)
    requires k < |QueueOf(s, s.tasks[id].connectionId)| && QueueOf(s, s.tasks[id].connectionId)[k] == s.tasks[id]
    requires shorter.queued == s.queued - 1 && shorter.queuedBytes == s.queuedBytes - s.tasks[id].bytes
    requires forall d :: QueueOf(shorter, d)
                      == if d == s.tasks[id].connectionId then RemoveAt(QueueOf(s, d), k) else QueueOf(s, d)
    ensures Inv(l, Settle(shorter, id, Expired))
  {
    ExpiredQueues(s, shorter, id, k);
    ExpiredCounted(l, s, shorter, id);
    StartedUntouched(s, Settle(shorter, id, Expired));
  }

  lemma UnqueueShaped(s: State, task: Task)
    requires Shaped(s) && task in QueueOf(s, task.connectionId)
    ensures Shaped(Unqueue(s, task))
    ensures var c := task.connectionId;
            forall d :: QueueOf(Unqueue(s, task), d)
                     == if d == c then RemoveAt(QueueOf(s, c), PlaceOf(QueueOf(s, c), task)) else QueueOf(s, d)
  {
    var c := task.connectionId;
    var left := RemoveAt(QueueOf(s, c), PlaceOf(QueueOf(s, c), task));
    var shorter := s.(queues := s.queues[c := left], queued := s.queued - 1, queuedBytes := s.queuedBytes - task.bytes);
    assert c in s.queues;
    assert c in s.rotation;
    if left == [] {
      RemoveRotationShaped(shorter, c);
    }
  }

  lemma ExpiredQueues(s: State, shorter: State, id: nat, k: nat)
    requires Recorded(s) && QueuesHoldWaiting(s) && Shaped(shorter) && id < |s.tasks| && s.status[id].Queued?
    requires k < |QueueOf(s, s.tasks[id].connectionId)| && QueueOf(s, s.tasks[id].connectionId)[k] == s.tasks[id]
    requires SameRecord(s, shorter)
    requires forall d :: QueueOf(shorter, d)
                      == if d == s.tasks[id].connectionId then RemoveAt(QueueOf(s, d), k) else QueueOf(s, d)
    ensures var s' := Settle(shorter, id, Expired); Recorded(s') && Shaped(s') && QueuesHoldWaiting(s')
  {
    var s' := Settle(shorter, id, Expired);
    assert forall d :: QueueOf(s', d) == QueueOf(shorter, d);
    LeaveQueue(s, id, k, Expired, s');
  }

  lemma ExpiredCounted(l: Limits, s: State, shorter: State, id: nat)
    requires Recorded(s) && Counted(s) && WithinCaps(l, s) && id < |s.tasks| && s.status[id].Queued?
    requires SameRecord(s, shorter)
    requires shorter.queued == s.queued - 1 && shorter.queuedBytes == s.queuedBytes - s.tasks[id].bytes
    ensures var s' := Settle(shorter, id, Expired); Recorded(s') && Counted(s') && WithinCaps(l, s')
  {
    var s' := Settle(shorter, id, Expired);
    assert forall d :: ActiveOf(s', d) == ActiveOf(s, d);
    SetCounted(s, s', id, Expired);
  }

  // ----- Cancel -----

  lemma CancelKeeps(l: Limits, s: State)
    requires Inv(l, s)
    ensures Inv(l, Cancel(s))
  {
    var s' := Cancel(s);
    forall c ensures QueueOf(s', c) == Waiting(s'.tasks, s'.status, c) {
      WaitingNone(s'.tasks, s'.status, c);
    }
    TallyZero(CountQueued, s'.tasks, s'.status);
    TallyZero(QueuedBytes, s'.tasks, s'.status);
    TallySame(CountActive, s.tasks, s.status, s'.status);
    forall d ensures ActiveOf(s', d) == Tally(CountActiveOf(d), s'.tasks, s'.status) <= l.maxConnectionActive {
      assert ActiveOf(s, d) == Tally(CountActiveOf(d), s.tasks, s.status) <= l.maxConnectionActive;
      TallySame(CountActiveOf(d), s.tasks, s.status, s'.status);
    }
    StartedUntouched(s, s');
  }

  // ----- Steps that touch neither queues nor record -----

  lemma OtherStepsKeep(l: Limits, s: State, waiters: set<nat>, woken: set<nat>, accepting: bool)
    requires Inv(l, s)
    ensures Inv(l, s.(accepting := accepting, idleWaiters := waiters, woken := woken))
  {
    var s' := s.(accepting := accepting, idleWaiters := waiters, woken := woken);
    forall c ensures QueueOf(s', c) == Waiting(s'.tasks, s'.status, c) {
      assert QueueOf(s, c) == Waiting(s.tasks, s.status, c);
    }
    forall d ensures ActiveOf(s', d) == Tally(CountActiveOf(d), s'.tasks, s'.status) <= l.maxConnectionActive {
      assert ActiveOf(s, d) == Tally(CountActiveOf(d), s.tasks, s.status) <= l.maxConnectionActive;
    }
    StartedUntouched(s, s');
  }
}
