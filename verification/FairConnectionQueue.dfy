/** The class `FairConnectionQueue`, with its fields updated in place as in bot-gateway/src/queue.ts. */
module FairConnectionQueueClass {
  import opened Wrappers
  import opened Rotation
  import opened FairQueue
  import opened FairQueueInvariant
  import opened FairQueueRuns
  import opened FairQueueOperations
  import opened FairQueueEffects

  /** What is left of the queue of a task without it. */
  function WithoutTask(s: State, task: Task): seq<Task>
    requires task in QueueOf(s, task.connectionId)
  {
    RemoveAt(QueueOf(s, task.connectionId), PlaceOf(QueueOf(s, task.connectionId), task))
  }

  function Shortened(s: State, task: Task, left: seq<Task>): State {
    s.(queues := s.queues[task.connectionId := left], queued := s.queued - 1, queuedBytes := s.queuedBytes - task.bytes)
  }

  /** An expiry in three parts: the queue gets shorter, an empty one leaves the rotation, the entry is rejected. */
  lemma ExpireIs(s: State, id: nat)
    requires id < |s.tasks| && id < |s.status| && id < |s.settlements|
    requires s.tasks[id] in QueueOf(s, s.tasks[id].connectionId)
    ensures var (task, left) := (s.tasks[id], WithoutTask(s, s.tasks[id]));
            var shorter := Shortened(s, task, left);
            var dropped := if left == [] then RemoveRotation(shorter, task.connectionId) else shorter;
            Expire(s, id) == Settle(dropped, id, Expired)
  {
  }

  lemma CancelIs(l: Limits, s: State)
    requires Inv(l, s)
    ensures Execute(l, s, CancelQueued) == CheckIdle(Cancel(s)) && Inv(l, CheckIdle(Cancel(s)))
    ensures |s.status| == |s.settlements|
  {
    CancelKeeps(l, s);
    CheckIdleKeeps(l, Cancel(s));
  }

  class FairConnectionQueue {
    const limits: Limits
    var accepting: bool
    var active: int
    var queued: int
    var queuedBytes: int
    var activeByConnection: map<Connection, int>
    var queues: map<Connection, seq<Task>>
    var rotation: seq<Connection>
    var rotationIndex: nat
    var idleWaiters: set<nat>
    var nextId: nat          // the identity of the next entry object
    ghost var view: State    // the fields above, and the record of the run

    /** The fields are those of the abstract state. */
    ghost predicate Tied()
      reads this
    {
      TiedButId() && nextId == |view.tasks|
    }

    ghost predicate TiedButId()
      reads this
    {
      && accepting == view.accepting
      && active == view.active
      && queued == view.queued
      && queuedBytes == view.queuedBytes
      && activeByConnection == view.activeByConnection
      && queues == view.queues
      && rotation == view.rotation
      && rotationIndex == view.rotationIndex
      && idleWaiters == view.idleWaiters
    }

    ghost predicate Valid()
      reads this
    {
      Tied() && Inv(limits, view)
    }

    constructor (limits: Limits)
      ensures Valid() && this.limits == limits && view == INITIAL && Quiescent(limits, view)
    {
      this.limits := limits;
      accepting, active, queued, queuedBytes := true, 0, 0, 0;
      activeByConnection, queues, rotation, rotationIndex := map[], map[], [], 0;
      idleWaiters, nextId := {}, 0;
      view := INITIAL;
    }

    method DropFromRotation(c: Connection)
      requires Tied()
      modifies this`queues, this`rotation, this`rotationIndex, this`view
      ensures Tied() && view == RemoveRotation(old(view), c)
    {
      view := RemoveRotation(view, c);
      queues := queues - {c};
      if c !in rotation {
        return;
      }
      var index := IndexOf(rotation, c);
      rotation := rotation[..index] + rotation[index + 1..];
      if index < rotationIndex {
        rotationIndex := rotationIndex - 1;
      }
      if rotationIndex >= |rotation| {
        rotationIndex := 0;
      }
    }

    method NotifyIfIdle()
      requires Tied()
      modifies this`idleWaiters, this`view
      ensures Tied() && view == CheckIdle(old(view))
    {
      view := CheckIdle(view);
      if active != 0 || queued != 0 {
        return;
      }
      idleWaiters := {};
    }

    /** The loop of `nextEligible`: move the cursor just past the first connection below its cap. */
    method Scan() returns (chosen: Option<Connection>)
      requires Tied() && InRange(view.rotation, view.rotationIndex)
      modifies this`rotationIndex, this`view
      ensures Tied() && chosen.Some? == Pick(limits, old(view), 0).Some?
      ensures chosen.None? ==> view == old(view)
      ensures chosen.Some? ==> StoppedAt(old(view), Pick(limits, old(view), 0).value, chosen.value, view)
    {
      if |rotation| == 0 {
        return None;
      }
      ghost var before := view;
      var size := |rotation|;
      for checked := 0 to size
        invariant rotationIndex == PlaceAfter(size, before.rotationIndex, checked)
        invariant view == before.(rotationIndex := rotationIndex)
        invariant Pick(limits, before, 0) == Pick(limits, before, checked)
      {
        var c := rotation[rotationIndex];
        rotationIndex := (rotationIndex + 1) % size;
        view := view.(rotationIndex := Advance(size, Position(before, checked)));
        if (if c in activeByConnection then activeByConnection[c] else 0) >= limits.maxConnectionActive {
          continue;
        }
        return Some(c);
      }
      chosen := None;
    }

    /** Hands over the head of the first queue, from the cursor on, whose connection is below its cap. */
    method NextEligible() returns (entry: Option<Task>)
      requires Tied() && Shaped(view)
      modifies this`queues, this`rotation, this`rotationIndex, this`view
      ensures Tied() && entry.Some? == Pick(limits, old(view), 0).Some?
      ensures entry.None? ==> view == old(view)
      ensures entry.Some? ==>
                TakenAt(old(view), Position(old(view), Pick(limits, old(view), 0).value), entry.value, view)
    {
      var chosen := Scan();
      if chosen.None? {
        return None;
      }
      var head := TakeHead(chosen.value);
      entry := Some(head);
    }

    /** `queue.shift()`; the source's branch for an empty queue is ruled out by the invariant. */
    method TakeHead(c: Connection) returns (entry: Task)
      requires Tied() && c in queues && queues[c] != []
      modifies this`queues, this`rotation, this`rotationIndex, this`view
      ensures Tied() && entry == old(queues)[c][0]
      ensures var shifted := old(view).(queues := old(queues)[c := old(queues)[c][1..]]);
              view == if |old(queues)[c]| == 1 then RemoveRotation(shifted, c) else shifted
    {
      var queue := queues[c];
      entry := queue[0];
      queues := queues[c := queue[1..]];
      view := view.(queues := queues);
      if |queue| == 1 {
        DropFromRotation(c);
      }
    }

    method MarkActive(entry: Task)
      requires Tied() && entry.id < |view.status|
      modifies this`queued, this`queuedBytes, this`active, this`activeByConnection, this`view
      ensures Tied() && view == MarkStarted(old(view), entry)
    {
      view := MarkStarted(view, entry);
      queued := queued - 1;
      queuedBytes := queuedBytes - entry.bytes;
      active := active + 1;
      var c := entry.connectionId;
      activeByConnection := activeByConnection[c := (if c in activeByConnection then activeByConnection[c] else 0) + 1];
    }

    /** One turn of the loop in `drain`; false when `nextEligible` found nothing. */
    method DispatchOne() returns (found: bool)
      requires Valid() && active < limits.maxGlobalActive && queued > 0
      modifies this
      ensures Tied() && (found <==> CanDispatch(limits, old(view)))
      ensures view == if found then Dispatch(limits, old(view)) else old(view)
    {
      ghost var before := view;
      var entry := NextEligible();
      found := entry.Some?;
      if found {
        DispatchIsTake(limits, before);
        TakeAtFrame(before, Position(before, Pick(limits, before, 0).value));
        MarkActive(entry.value);
      }
    }

    method DispatchAll()
      requires Valid()
      modifies this
      ensures Valid() && view == Drain(limits, old(view))
    {
      ghost var goal := Drain(limits, view);
      while active < limits.maxGlobalActive && queued > 0
        invariant Valid() && Drain(limits, view) == goal
        decreases queued
      {
        ghost var before := view;
        if CanDispatch(limits, before) {
          DispatchKeeps(limits, before);
          DispatchLess(limits, before);
        }
        var found := DispatchOne();
        if !found {
          return;
        }
      }
    }

    /** `run` up to its call of `drain`: admission check, then the entry joins its queue. */
    method Enqueue(c: Connection, bytes: nat) returns (id: nat, admitted: bool)
      requires Tied()
      modifies this
      ensures Tied() && id == old(nextId) && admitted == Admits(limits, old(view), c, bytes)
      ensures view == FairQueue.Submit(limits, old(view), c, bytes)
    {
      id, admitted := nextId, false;
      var entry := Task(id, c, bytes);
      var connectionQueued := if c in queues then |queues[c]| else 0;
      var mustWait := active >= limits.maxGlobalActive
        || (if c in activeByConnection then activeByConnection[c] else 0) >= limits.maxConnectionActive
        || queued > 0;
      nextId := nextId + 1;
      if !accepting || (mustWait && (queued >= limits.maxGlobalQueued
                                     || connectionQueued >= limits.maxConnectionQueued
                                     || queuedBytes + bytes > limits.maxQueuedBytes))
      {
        view := Reject(view, entry);
        return;
      }
      admitted := true;
      JoinQueue(entry);
    }

    method JoinQueue(entry: Task)
      requires |view.tasks| + 1 == nextId && TiedButId()
      modifies this`queues, this`rotation, this`queued, this`queuedBytes, this`view
      ensures Tied() && view == Admit(old(view), entry)
    {
      view := Admit(view, entry);
      var c := entry.connectionId;
      if c !in queues {
        queues := queues[c := []];
        rotation := rotation + [c];
      }
      queues := queues[c := queues[c] + [entry]];
      queued := queued + 1;
      queuedBytes := queuedBytes + entry.bytes;
    }

    /** `run`: the id of the submitted task, and whether it was admitted. */
    method Submit(c: Connection, bytes: nat) returns (id: nat, admitted: bool)
      requires Valid()
      modifies this
      ensures Valid() && id == old(nextId)
      ensures admitted <==>
                && old(accepting)
                && (|| (old(active) < limits.maxGlobalActive && old(ActiveOf(view, c)) < limits.maxConnectionActive &&
                        old(queued) == 0)
                    || (old(queued) + 1 <= limits.maxGlobalQueued &&
                        |old(QueueOf(view, c))| + 1 <= limits.maxConnectionQueued &&
                        old(queuedBytes) + bytes <= limits.maxQueuedBytes))
      ensures view == Execute(limits, old(view), Run(c, bytes))
    {
      AdmissionIff(limits, view, c, bytes);
      SubmittedStatus(limits, view, c, bytes);
      SubmitKeeps(limits, view, c, bytes);
      id, admitted := Enqueue(c, bytes);
      if admitted {
        DispatchAll();
      }
    }

    method ReleaseSlot(entry: Task)
      requires Tied() && entry.id < |view.tasks| && view.tasks[entry.id] == entry
      requires entry.id < |view.status| && entry.id < |view.settlements|
      modifies this`active, this`activeByConnection, this`view
      ensures Tied() && view == Release(old(view), entry.id)
    {
      view := Release(view, entry.id);
      active := active - 1;
      var c := entry.connectionId;
      var remaining := (if c in activeByConnection then activeByConnection[c] else 1) - 1;
      activeByConnection := if remaining <= 0 then activeByConnection - {c} else activeByConnection[c := remaining];
    }

    /** A started task settles: the `finally` of `drain`. */
    method Finish(entry: Task)
      requires Valid() && entry.id < |view.tasks| && view.tasks[entry.id] == entry && view.status[entry.id].Active?
      modifies this
      ensures Valid() && view == Execute(limits, old(view), Complete(entry.id))
    {
      ReleaseKeeps(limits, view, entry.id);
      ReleaseSlot(entry);
      DispatchAll();
      CheckIdleKeeps(limits, view);
      NotifyIfIdle();
    }

    /** `queue.splice(index, 1)` and the two counters. */
    method ShortenQueue(target: Task) returns (left: seq<Task>)
      requires Tied() && target in QueueOf(view, target.connectionId)
      modifies this`queues, this`queued, this`queuedBytes, this`view
      ensures Tied() && view == Shortened(old(view), target, left) && left == WithoutTask(old(view), target)
    {
      var c := target.connectionId;
      var queue := queues[c];
      var index := PlaceOf(queue, target);
      left := queue[..index] + queue[index + 1..];
      view := Shortened(view, target, left);
      queues := queues[c := left];
      queued := queued - 1;
      queuedBytes := queuedBytes - target.bytes;
    }

    method RemoveEntry(target: Task)
      requires Tied() && target in QueueOf(view, target.connectionId)
      requires target.id < |view.tasks| && view.tasks[target.id] == target
      requires target.id < |view.status| && target.id < |view.settlements|
      modifies this`queues, this`rotation, this`rotationIndex, this`queued, this`queuedBytes, this`view
      ensures Tied() && view == Expire(old(view), target.id)
    {
      ExpireIs(view, target.id);
      var left := ShortenQueue(target);
      if |left| == 0 {
        DropFromRotation(target.connectionId);
      }
      view := Settle(view, target.id, Expired);
    }

    /** The wait timer of a task fires, at any time. */
    method ExpireEntry(target: Task)
      requires Valid() && target.id < |view.tasks| && view.tasks[target.id] == target
      modifies this
      ensures Valid() && view == Execute(limits, old(view), TimeOut(target.id))
    {
      ghost var before := view;
      ExpireKeeps(limits, before, target.id);
      var c := target.connectionId;
      if c !in queues || target !in queues[c] {
        return;
      }
      RemoveEntry(target);
      CheckIdleKeeps(limits, view);
      NotifyIfIdle();
    }

    method StopTaking()
      requires Valid()
      modifies this
      ensures Valid() && view == Execute(limits, old(view), StopAccepting)
    {
      ApplyKeeps(limits, view, StopStep);
      accepting := false;
      view := view.(accepting := false);
      CheckIdleKeeps(limits, view);
      NotifyIfIdle();
    }

    method CancelAll()
      requires Valid()
      modifies this
      ensures Valid() && view == Execute(limits, old(view), CancelQueued)
    {
      CancelIs(limits, view);
      ghost var status, settlements := RejectQueued(limits, view);
      ClearQueues(status, settlements);
      NotifyIfIdle();
    }

    method ClearQueues(ghost status: seq<Status>, ghost settlements: seq<nat>)
      requires Tied() && |view.status| == |view.settlements|
      requires status == CancelStatus(view.status) && settlements == CancelSettlements(view.status, view.settlements)
      modifies this`queues, this`rotation, this`rotationIndex, this`queued, this`queuedBytes, this`view
      ensures Tied() && view == Cancel(old(view))
    {
      queues := map[];
      rotation := [];
      rotationIndex := 0;
      queued := 0;
      queuedBytes := 0;
      view := Cancel(view);
    }

    /** `waitForIdle`: true when idle already; otherwise the waiter is registered. */
    method AwaitIdle(waiter: nat) returns (idle: bool)
      requires Valid()
      modifies this
      ensures Valid() && idle == IsIdle(old(view))
      ensures view == Execute(limits, old(view), WaitForIdle(waiter))
    {
      ApplyKeeps(limits, view, WaitStep(waiter));
      view := Wait(view, waiter);
      if active == 0 && queued == 0 {
        return true;
      }
      idleWaiters := idleWaiters + {waiter};
      return false;
    }
  }

  /** Reject every entry of one queue. */
  ghost method RejectAll(tasks: seq<Task>, status: seq<Status>, settlements: seq<nat>, queue: seq<Task>)
    returns (status': seq<Status>, settlements': seq<nat>)
    requires |tasks| == |status| == |settlements| && Numbered(tasks)
    requires forall k :: 0 <= k < |queue| ==> queue[k].id < |tasks| && tasks[queue[k].id] == queue[k]
    requires forall j, k :: 0 <= j < k < |queue| ==> queue[j].id != queue[k].id
    ensures |tasks| == |status'| == |settlements'|
    ensures forall i :: 0 <= i < |tasks| ==> status'[i] == if tasks[i] in queue then Cancelled else status[i]
    ensures forall i :: 0 <= i < |tasks| ==> settlements'[i] == settlements[i] + if tasks[i] in queue then 1 else 0
  {
    status', settlements' := status, settlements;
    for k := 0 to |queue|
      invariant |tasks| == |status'| == |settlements'|
      invariant forall i :: 0 <= i < |tasks| ==> status'[i] == if tasks[i] in queue[..k] then Cancelled else status[i]
      invariant forall i :: 0 <= i < |tasks| ==>
                  settlements'[i] == settlements[i] + if tasks[i] in queue[..k] then 1 else 0
    {
      var id := queue[k].id;
      assert queue[..k + 1] == queue[..k] + [queue[k]];
      assert queue[k] !in queue[..k];
      status' := status'[id := Cancelled];
      settlements' := settlements'[id := settlements'[id] + 1];
    }
    assert queue[..|queue|] == queue;
  }

  /** Reject every entry of every queue, in the order of the rotation. */
  ghost method RejectQueued(l: Limits, s: State) returns (status: seq<Status>, settlements: seq<nat>)
    requires Inv(l, s)
    ensures status == CancelStatus(s.status) && settlements == CancelSettlements(s.status, s.settlements)
  {
    status, settlements := s.status, s.settlements;
    for k := 0 to |s.rotation|
      invariant |s.tasks| == |status| == |settlements|
      invariant forall i | 0 <= i < |status| :: status[i] == if Listed(s, k, i) then Cancelled else s.status[i]
      invariant forall i | 0 <= i < |status| :: settlements[i] == s.settlements[i] + if Listed(s, k, i) then 1 else 0
    {
      var c := s.rotation[k];
      assert s.rotation[..k + 1] == s.rotation[..k] + [c];
      assert c !in s.rotation[..k];
      QueueEntries(l, s, c);
      status, settlements := RejectAll(s.tasks, status, settlements, QueueOf(s, c));
    }
    AllQueuedListed(l, s);
    assert s.rotation[..|s.rotation|] == s.rotation;
  }

  lemma CheckIdleKeeps(l: Limits, s: State)
    requires Inv(l, s)
    ensures Inv(l, CheckIdle(s)) && Apply(l, s, CheckIdleStep) == CheckIdle(s)
  {
    ApplyKeeps(l, s, CheckIdleStep);
  }

  /** The array position reached after looking at `checked` connections. */
  function PlaceAfter(size: nat, index: nat, checked: nat): (p: nat)
    requires index < size && checked <= size
    ensures p < size
  {
    if index + checked < size then index + checked else index + checked - size
  }

  /** `after` is `before` with the cursor moved past the `k`-th connection of the scan, which is `c`. */
  ghost predicate StoppedAt(before: State, k: nat, c: Connection, after: State)
    requires k < |before.rotation| && before.rotationIndex < |before.rotation|
  {
    c == before.rotation[Position(before, k)] &&
    after == before.(rotationIndex := Advance(|before.rotation|, Position(before, k)))
  }

  /** `after` is `before` with `entry` taken from the queue at array position `p`. */
  ghost predicate TakenAt(before: State, p: nat, entry: Task, after: State) {
    p < |before.rotation| && QueueOf(before, before.rotation[p]) != [] &&
    entry == QueueOf(before, before.rotation[p])[0] && after == TakeAt(before, p)
  }

  /** Task `i` is queued on one of the first `k` connections of the rotation. */
  ghost predicate Listed(s: State, k: nat, i: nat)
    requires k <= |s.rotation| && i < |s.tasks| && i < |s.status|
  {
    s.status[i].Queued? && s.tasks[i].connectionId in s.rotation[..k]
  }

  lemma QueueEntries(l: Limits, s: State, c: Connection)
    requires Inv(l, s)
    ensures forall k :: 0 <= k < |QueueOf(s, c)| ==>
              var task := QueueOf(s, c)[k]; task.id < |s.tasks| && s.tasks[task.id] == task
    ensures forall j, k :: 0 <= j < k < |QueueOf(s, c)| ==> QueueOf(s, c)[j].id != QueueOf(s, c)[k].id
    ensures forall i :: 0 <= i < |s.tasks| ==>
              (s.tasks[i] in QueueOf(s, c) <==> s.status[i].Queued? && s.tasks[i].connectionId == c)
  {
    var queue := QueueOf(s, c);
    assert queue == Waiting(s.tasks, s.status, c);
    forall k | 0 <= k < |queue|
      ensures queue[k].id < |s.tasks| && s.tasks[queue[k].id] == queue[k]
      ensures s.status[queue[k].id].Queued? && queue[k].connectionId == c
    {
      WaitingSound(s.tasks, s.status, c, k);
    }
    forall j, k | 0 <= j < k < |queue| ensures queue[j].id != queue[k].id {
      WaitingIncreasing(s.tasks, s.status, c, j, k);
    }
    forall i | 0 <= i < |s.tasks| && s.status[i].Queued? && s.tasks[i].connectionId == c ensures s.tasks[i] in queue {
      QueuedIffInQueue(l, s, i);
    }
  }

  lemma AllQueuedListed(l: Limits, s: State)
    requires Inv(l, s)
    ensures forall i :: 0 <= i < |s.tasks| && s.status[i].Queued? ==> s.tasks[i].connectionId in s.rotation
  {
    forall i | 0 <= i < |s.tasks| && s.status[i].Queued? ensures s.tasks[i].connectionId in s.rotation {
      QueuedIffInQueue(l, s, i);
    }
  }
}
