/** How one public operation of the fair queue moves the tasks, as its callers see it. */
module FairQueueMoves {
  import opened Wrappers
  import opened Rotation
  import opened FairQueue
  import opened FairQueueInvariant
  import FairQueueRuns
  import opened FairQueueOperations

  /** A task finishes only in the operation that completes that very task. */
  predicate Advances(before: Status, after: Status, completed: bool) {
    before == after
    || (before.Queued? && (after.Active? || after.Expired? || after.Cancelled?))
    || (before.Active? && after.Finished? && completed)
  }

  ghost predicate Moves(s: State, s': State, completed: Option<nat>) {
    && |s.tasks| == |s.status| <= |s'.tasks| == |s'.status|
    && forall id :: 0 <= id < |s.tasks| ==> MovesAt(s, s', completed, id)
  }

  predicate MovesAt(s: State, s': State, completed: Option<nat>, id: nat)
    requires id < |s.tasks| == |s.status| <= |s'.tasks| == |s'.status|
  {
    s'.tasks[id] == s.tasks[id] && Advances(s.status[id], s'.status[id], completed == Some(id))
  }

  function Completes(op: Operation): Option<nat> {
    if op.Complete? then Some(op.id) else None
  }

  /** Dispatching only makes queued tasks active. */
  ghost predicate OnlyStarts(s: State, s': State) {
    && |s'.tasks| == |s'.status| == |s.tasks| == |s.status|
    && s'.tasks == s.tasks
    && forall id :: 0 <= id < |s.status| ==>
         s'.status[id] == s.status[id] || (s.status[id].Queued? && s'.status[id].Active?)
  }

  lemma DispatchOnlyStarts(l: Limits, s: State)
    requires Inv(l, s) && CanDispatch(l, s)
    ensures OnlyStarts(s, Dispatch(l, s))
  {
    DispatchIsTake(l, s);
    TakeAtFrame(s, Position(s, Pick(l, s, 0).value));
  }

  lemma StartsCompose(s: State, mid: State, s': State)
    requires OnlyStarts(s, mid) && OnlyStarts(mid, s')
    ensures OnlyStarts(s, s')
  {
  }

  lemma {:induction false} DrainOnlyStarts(l: Limits, s: State)
    requires Inv(l, s)
    ensures OnlyStarts(s, Drain(l, s))
    decreases s.queued
  {
    if CanDispatch(l, s) {
      DispatchKeeps(l, s);
      DispatchLess(l, s);
      DispatchOnlyStarts(l, s);
      DrainOnlyStarts(l, Dispatch(l, s));
      StartsCompose(s, Dispatch(l, s), Drain(l, Dispatch(l, s)));
    }
  }

  lemma MovesThenStarts(s: State, mid: State, s': State, completed: Option<nat>)
    requires Moves(s, mid, completed) && OnlyStarts(mid, s')
    ensures Moves(s, s', completed) && |s'.tasks| == |mid.tasks|
  {
    forall id | 0 <= id < |s.tasks| ensures MovesAt(s, s', completed, id) {
      assert MovesAt(s, mid, completed, id);
    }
  }

  lemma SubmitMoves(l: Limits, s: State, c: Connection, bytes: nat)
    requires |s.tasks| == |s.status|
    ensures Moves(s, Submit(l, s, c, bytes), None) && |Submit(l, s, c, bytes).tasks| == |s.tasks| + 1
    ensures Submit(l, s, c, bytes).tasks == s.tasks + [Task(|s.tasks|, c, bytes)]
    ensures Submit(l, s, c, bytes).status[|s.tasks|] == if Admits(l, s, c, bytes) then Queued else Rejected
  {
  }

  lemma ReleaseMoves(s: State, id: nat)
    requires Recorded(s) && id < |s.tasks| && s.status[id].Active?
    ensures Moves(s, Release(s, id), Some(id)) && |Release(s, id).tasks| == |s.tasks|
    ensures Release(s, id).status[id].Finished?
  {
  }

  lemma ExpireMoves(l: Limits, s: State, id: nat)
    requires Inv(l, s) && id < |s.tasks|
    ensures Moves(s, Expire(s, id), None) && |Expire(s, id).tasks| == |s.tasks|
  {
    QueuedIffInQueue(l, s, id);
    if s.status[id].Queued? {
      UnqueueFrame(s, s.tasks[id]);
    }
  }

  lemma CancelMoves(s: State)
    requires Recorded(s)
    ensures Moves(s, Cancel(s), None) && |Cancel(s).tasks| == |s.tasks|
  {
  }

  lemma RunMoves(l: Limits, s: State, c: Connection, bytes: nat)
    requires Inv(l, s)
    ensures var s' := Execute(l, s, Run(c, bytes));
            Moves(s, s', None) && s'.tasks == s.tasks + [Task(|s.tasks|, c, bytes)] && !s'.status[|s.tasks|].Finished?
  {
    SubmitKeeps(l, s, c, bytes);
    SubmitMoves(l, s, c, bytes);
    var s1 := Submit(l, s, c, bytes);
    if Admits(l, s, c, bytes) {
      DrainOnlyStarts(l, s1);
      MovesThenStarts(s, s1, Drain(l, s1), None);
    }
  }

  lemma CompleteMoves(l: Limits, s: State, id: nat)
    requires Inv(l, s) && id < |s.tasks| && s.status[id].Active?
    ensures var s' := Execute(l, s, Complete(id));
            Moves(s, s', Some(id)) && |s'.tasks| == |s.tasks| && s'.status[id].Finished?
  {
    ReleaseKeeps(l, s, id);
    ReleaseMoves(s, id);
    var s1 := Release(s, id);
    DrainOnlyStarts(l, s1);
    MovesThenStarts(s, s1, Drain(l, s1), Some(id));
    SameMoves(s, Drain(l, s1), Execute(l, s, Complete(id)), Some(id));
  }

  lemma SameMoves(s: State, mid: State, s': State, completed: Option<nat>)
    requires Moves(s, mid, completed) && s'.tasks == mid.tasks && s'.status == mid.status
    ensures Moves(s, s', completed)
  {
    forall id | 0 <= id < |s.tasks| ensures MovesAt(s, s', completed, id) {
      assert MovesAt(s, mid, completed, id);
    }
  }

  lemma TimeOutMoves(l: Limits, s: State, id: nat)
    requires Inv(l, s) && id < |s.tasks|
    ensures var s' := Execute(l, s, TimeOut(id)); Moves(s, s', None) && |s'.tasks| == |s.tasks|
  {
    ExpireMoves(l, s, id);
    TimeOutRecord(l, s, id);
    SameMoves(s, Expire(s, id), Execute(l, s, TimeOut(id)), None);
  }

  lemma TimeOutIs(l: Limits, s: State, id: nat)
    requires Inv(l, s) && id < |s.tasks|
    ensures Inv(l, Expire(s, id))
    ensures Execute(l, s, TimeOut(id)) ==
            if s.tasks[id] in QueueOf(s, s.tasks[id].connectionId)
            then FairQueueRuns.Apply(l, Expire(s, id), FairQueueRuns.CheckIdleStep)
            else s
  {
    ExpireKeeps(l, s, id);
  }

  lemma CheckIdleRecord(l: Limits, s: State)
    requires Inv(l, s)
    ensures var s' := FairQueueRuns.Apply(l, s, FairQueueRuns.CheckIdleStep);
            s'.tasks == s.tasks && s'.status == s.status
  {
  }

  lemma TimeOutRecord(l: Limits, s: State, id: nat)
    requires Inv(l, s) && id < |s.tasks|
    ensures var s' := Execute(l, s, TimeOut(id)); s'.tasks == Expire(s, id).tasks && s'.status == Expire(s, id).status
  {
    TimeOutIs(l, s, id);
    CheckIdleRecord(l, Expire(s, id));
  }

  lemma CancelQueuedMoves(l: Limits, s: State)
    requires Inv(l, s)
    ensures var s' := Execute(l, s, CancelQueued); Moves(s, s', None) && |s'.tasks| == |s.tasks|
  {
    CancelMoves(s);
    SameMoves(s, Cancel(s), Execute(l, s, CancelQueued), None);
  }

  lemma OthersMove(l: Limits, s: State, op: Operation)
    requires Inv(l, s) && (op.StopAccepting? || op.WaitForIdle? || op.GiveUpWaiting?)
    ensures var s' := Execute(l, s, op); Moves(s, s', None) && |s'.tasks| == |s.tasks|
  {
    StillMoves(s, Execute(l, s, op));
  }

  lemma StillMoves(s: State, s': State)
    requires Recorded(s) && s'.tasks == s.tasks && s'.status == s.status
    ensures Moves(s, s', None)
  {
  }

  /** The whole effect on the tasks: submitting adds one, completing finishes one, and all others at
      most leave the queue. */
  lemma ExecuteMoves(l: Limits, s: State, op: Operation)
    requires Inv(l, s) && Possible(s, op)
    ensures var s' := Execute(l, s, op);
            && Moves(s, s', Completes(op))
            && |s'.tasks| == |s.tasks| + (if op.Run? then 1 else 0)
            && (op.Run? ==> s'.tasks[|s.tasks|] == Task(|s.tasks|, op.c, op.bytes) && !s'.status[|s.tasks|].Finished?)
            && (op.Complete? ==> s'.status[op.id].Finished?)
  {
    match op
    case Run(c, bytes) => RunMoves(l, s, c, bytes);
    case Complete(id) => CompleteMoves(l, s, id);
    case TimeOut(id) => TimeOutMoves(l, s, id);
    case CancelQueued => CancelQueuedMoves(l, s);
    case _ => OthersMove(l, s, op);
  }
}
