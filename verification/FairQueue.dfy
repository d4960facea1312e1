/**
  `FairConnectionQueue` of bot-gateway/src/queue.ts as a state machine: the fields of the class,
  plus a record of what happened to every submitted task.
 */
module FairQueue {
  import opened Wrappers
  import opened Rotation

  datatype Limits = Limits(
    maxGlobalActive: nat, maxConnectionActive: nat,
    maxGlobalQueued: nat, maxConnectionQueued: nat, maxQueuedBytes: nat)

  /** A submitted task; `id` stands for the identity of the entry object. */
  datatype Task = Task(id: nat, connectionId: Connection, bytes: nat)

  datatype Status = Rejected | Queued | Active | Finished | Expired | Cancelled {
    predicate IsSettled() {
      !Queued? && !Active?
    }

    predicate HasStarted() {
      Active? || Finished?
    }
  }

  datatype State = State(
    accepting: bool,
    active: int,
    queued: int,
    queuedBytes: int,
    activeByConnection: map<Connection, int>,
    queues: map<Connection, seq<Task>>,
    rotation: seq<Connection>,
    rotationIndex: nat,
    idleWaiters: set<nat>,
    // The record of the run, indexed by task id.
    tasks: seq<Task>,
    status: seq<Status>,
    settlements: seq<nat>,   // how often the task's promise was resolved or rejected
    started: seq<Task>,      // in dispatch order
    woken: set<nat>)         // idle waiters answered `true`

  const INITIAL := State(true, 0, 0, 0, map[], map[], [], 0, {}, [], [], [], [], {})

  function QueueOf(s: State, c: Connection): seq<Task> {
    if c in s.queues then s.queues[c] else []
  }

  function ActiveOf(s: State, c: Connection): int {
    if c in s.activeByConnection then s.activeByConnection[c] else 0
  }

  predicate IsIdle(s: State) {
    s.active == 0 && s.queued == 0
  }

  // ----- What the counters ought to be -----

  datatype Measure = CountActive | CountActiveOf(c: Connection) | CountQueued | QueuedBytes

  function Weigh(m: Measure, task: Task, status: Status): nat {
    match m
    case CountActive => if status.Active? then 1 else 0
    case CountActiveOf(c) => if status.Active? && task.connectionId == c then 1 else 0
    case CountQueued => if status.Queued? then 1 else 0
    case QueuedBytes => if status.Queued? then task.bytes else 0
  }

  /** The sum of a measure over the whole record. */
  function Tally(m: Measure, tasks: seq<Task>, status: seq<Status>): nat
    requires |tasks| == |status|
  {
    if tasks == [] then 0
    else
      var last := |tasks| - 1;
      Tally(m, tasks[..last], status[..last]) + Weigh(m, tasks[last], status[last])
  }

  /** The tasks of a connection still queued, in admission order. */
  function Waiting(tasks: seq<Task>, status: seq<Status>, c: Connection): seq<Task>
    requires |tasks| == |status|
  {
    if tasks == [] then []
    else
      var last := |tasks| - 1;
      Waiting(tasks[..last], status[..last], c) +
      if status[last].Queued? && tasks[last].connectionId == c then [tasks[last]] else []
  }

  // ----- The invariant -----

  ghost predicate Recorded(s: State) {
    && |s.tasks| == |s.status| == |s.settlements|
    && (forall i :: 0 <= i < |s.tasks| ==> s.tasks[i].id == i)
    && (forall i :: 0 <= i < |s.tasks| ==> s.settlements[i] == if s.status[i].IsSettled() then 1 else 0)
  }

  ghost predicate Shaped(s: State) {
    && NoDuplicates(s.rotation)
    && InRange(s.rotation, s.rotationIndex)
    && (forall c :: c in s.rotation <==> c in s.queues)
    && (forall c :: c in s.queues ==> s.queues[c] != [])
  }

  ghost predicate QueuesHoldWaiting(s: State)
    requires Recorded(s)
  {
    forall c :: QueueOf(s, c) == Waiting(s.tasks, s.status, c)
  }

  ghost predicate Counted(s: State)
    requires Recorded(s)
  {
    && s.active == Tally(CountActive, s.tasks, s.status)
    && s.queued == Tally(CountQueued, s.tasks, s.status)
    && s.queuedBytes == Tally(QueuedBytes, s.tasks, s.status)
    && (forall c :: ActiveOf(s, c) == Tally(CountActiveOf(c), s.tasks, s.status))
    && (forall c :: c in s.activeByConnection ==> s.activeByConnection[c] > 0)
  }

  ghost predicate WithinCaps(l: Limits, s: State) {
    && s.active <= l.maxGlobalActive
    && (forall c :: ActiveOf(s, c) <= l.maxConnectionActive)
  }

  /** The started tasks are those marked so, and each connection started its tasks in admission order. */
  ghost predicate StartedInOrder(s: State)
    requires Recorded(s)
  {
    && (forall k :: 0 <= k < |s.started| ==> StartedRecorded(s, s.started[k]))
    && (forall i :: 0 <= i < |s.tasks| && s.status[i].HasStarted() ==> s.tasks[i] in s.started)
    && (forall j, k :: 0 <= j < k < |s.started| ==> InOrder(s.started[j], s.started[k]))
    && (forall k, i | 0 <= k < |s.started| && 0 <= i < |s.tasks| && s.status[i].Queued? ::
          InOrder(s.started[k], s.tasks[i]))
  }

  predicate InOrder(earlier: Task, later: Task) {
    earlier.connectionId == later.connectionId ==> earlier.id < later.id
  }

  predicate StartedRecorded(s: State, task: Task)
    requires |s.tasks| == |s.status|
  {
    task.id < |s.tasks| && s.tasks[task.id] == task && s.status[task.id].HasStarted()
  }

  ghost predicate Inv(l: Limits, s: State) {
    Recorded(s) && Shaped(s) && QueuesHoldWaiting(s) && Counted(s) && WithinCaps(l, s) && StartedInOrder(s)
  }

  // ----- The operations -----

  function RemoveRotation(s: State, c: Connection): State {
    var emptied := s.(queues := s.queues - {c});
    if c !in s.rotation then emptied
    else
      var i := IndexOf(s.rotation, c);
      emptied.(rotation := RemoveAt(s.rotation, i),
               rotationIndex := CursorAfterRemoval(|s.rotation|, i, s.rotationIndex))
  }

  function CheckIdle(s: State): State {
    if IsIdle(s) then s.(idleWaiters := {}, woken := s.woken + s.idleWaiters) else s
  }

  function Settle(s: State, id: nat, status: Status): State
    requires id < |s.status| && id < |s.settlements|
  {
    s.(status := s.status[id := status], settlements := s.settlements[id := s.settlements[id] + 1])
  }

  /** `mustWait` together with the three queue limits. */
  predicate Overloaded(l: Limits, s: State, c: Connection, bytes: nat) {
    MustWait(l, s, c) &&
    (s.queued >= l.maxGlobalQueued || |QueueOf(s, c)| >= l.maxConnectionQueued
     || s.queuedBytes + bytes > l.maxQueuedBytes)
  }

  predicate MustWait(l: Limits, s: State, c: Connection) {
    s.active >= l.maxGlobalActive || ActiveOf(s, c) >= l.maxConnectionActive || s.queued > 0
  }

  predicate Admits(l: Limits, s: State, c: Connection, bytes: nat) {
    s.accepting && !Overloaded(l, s, c, bytes)
  }

  function Reject(s: State, task: Task): State {
    s.(tasks := s.tasks + [task], status := s.status + [Rejected], settlements := s.settlements + [1])
  }

  /** The entry joins its connection's queue, and its connection the rotation if it was not there. */
  function Admit(s: State, task: Task): State {
    var c := task.connectionId;
    s.(tasks := s.tasks + [task], status := s.status + [Queued], settlements := s.settlements + [0],
       queues := s.queues[c := QueueOf(s, c) + [task]],
       rotation := if c in s.queues then s.rotation else s.rotation + [c],
       queued := s.queued + 1,
       queuedBytes := s.queuedBytes + task.bytes)
  }

  /** `run` up to, and without, its call of `drain`. */
  function Submit(l: Limits, s: State, c: Connection, bytes: nat): State {
    var task := Task(|s.tasks|, c, bytes);
    if Admits(l, s, c, bytes) then Admit(s, task) else Reject(s, task)
  }

  function ScanOrder(s: State): seq<Connection>
    requires InRange(s.rotation, s.rotationIndex)
  {
    Cycle(s.rotation, s.rotationIndex)
  }

  predicate BelowCap(l: Limits, s: State, c: Connection) {
    ActiveOf(s, c) < l.maxConnectionActive
  }

  /** How far the scan goes to the first connection below its cap, starting `k` places on. */
  function Pick(l: Limits, s: State, k: nat): (place: Option<nat>)
    requires InRange(s.rotation, s.rotationIndex) && k <= |s.rotation|
    ensures place.Some? ==> k <= place.value < |s.rotation| && BelowCap(l, s, ScanOrder(s)[place.value])
    ensures forall j :: k <= j < (if place.Some? then place.value else |s.rotation|) ==>
                          !BelowCap(l, s, ScanOrder(s)[j])
    decreases |s.rotation| - k
  {
    if k == |s.rotation| then None
    else if BelowCap(l, s, ScanOrder(s)[k]) then Some(k)
    else Pick(l, s, k + 1)
  }

  predicate CanDispatch(l: Limits, s: State)
    requires InRange(s.rotation, s.rotationIndex)
  {
    s.active < l.maxGlobalActive && s.queued > 0 && Pick(l, s, 0).Some?
  }

  /** The array position `k` places after the cursor. */
  function Position(s: State, k: nat): (p: nat)
    requires k < |s.rotation| && s.rotationIndex < |s.rotation|
    ensures p < |s.rotation| && s.rotation[p] == Cycle(s.rotation, s.rotationIndex)[k]
  {
    if s.rotationIndex + k < |s.rotation| then s.rotationIndex + k else s.rotationIndex + k - |s.rotation|
  }

  /** `nextEligible` stopping at array position `p`: move the cursor past it and shift its queue. */
  function TakeAt(s: State, p: nat): State
    requires p < |s.rotation| && QueueOf(s, s.rotation[p]) != []
  {
    var c := s.rotation[p];
    var shifted := s.(rotationIndex := Advance(|s.rotation|, p), queues := s.queues[c := QueueOf(s, c)[1..]]);
    if |QueueOf(s, c)| == 1 then RemoveRotation(shifted, c) else shifted
  }

  function NextConnection(l: Limits, s: State): Connection
    requires InRange(s.rotation, s.rotationIndex) && CanDispatch(l, s)
  {
    ScanOrder(s)[Pick(l, s, 0).value]
  }

  /** The bookkeeping of `drain` once `nextEligible` has handed over a task. */
  function MarkStarted(s: State, task: Task): State
    requires task.id < |s.status|
  {
    s.(queued := s.queued - 1, queuedBytes := s.queuedBytes - task.bytes, active := s.active + 1,
       activeByConnection := s.activeByConnection[task.connectionId := ActiveOf(s, task.connectionId) + 1],
       status := s.status[task.id := Active],
       started := s.started + [task])
  }

  /** One turn of the loop in `drain`. */
  function Dispatch(l: Limits, s: State): State
    requires Recorded(s) && Shaped(s) && QueuesHoldWaiting(s) && CanDispatch(l, s)
  {
    var p := Position(s, Pick(l, s, 0).value);
    var task := s.queues[s.rotation[p]][0];
    WaitingSound(s.tasks, s.status, s.rotation[p], 0);
    assert task == QueueOf(s, s.rotation[p])[0];
    MarkStarted(TakeAt(s, p), task)
  }

  /** The `finally` of a started task up to its call of `drain`; the task's promise has settled. */
  function Release(s: State, id: nat): State
    requires id < |s.tasks| && id < |s.status| && id < |s.settlements|
  {
    var c := s.tasks[id].connectionId;
    var remaining := (if c in s.activeByConnection then s.activeByConnection[c] else 1) - 1;
    Settle(s, id, Finished).(
      active := s.active - 1,
      activeByConnection := if remaining <= 0 then s.activeByConnection - {c} else s.activeByConnection[c := remaining])
  }

  function PlaceOf(queue: seq<Task>, task: Task): (p: nat)
    requires task in queue
    ensures p < |queue| && queue[p] == task
  {
    if queue[0] == task then 0 else 1 + PlaceOf(queue[1..], task)
  }

  /** Take a queued task out of its queue, dropping the connection when the queue empties. */
  function Unqueue(s: State, task: Task): State
    requires task in QueueOf(s, task.connectionId)
  {
    var c := task.connectionId;
    var left := RemoveAt(QueueOf(s, c), PlaceOf(QueueOf(s, c), task));
    var shorter := s.(queues := s.queues[c := left], queued := s.queued - 1, queuedBytes := s.queuedBytes - task.bytes);
    if left == [] then RemoveRotation(shorter, c) else shorter
  }

  /** The timer of a task, up to its call of `checkIdle`; a task no longer queued is left alone. */
  function Expire(s: State, id: nat): State
    requires id < |s.tasks| && id < |s.status| && id < |s.settlements|
  {
    if s.tasks[id] !in QueueOf(s, s.tasks[id].connectionId) then s
    else Settle(Unqueue(s, s.tasks[id]), id, Expired)
  }

  function CancelStatus(status: seq<Status>): seq<Status> {
    seq(|status|, i requires 0 <= i < |status| => if status[i].Queued? then Cancelled else status[i])
  }

  function CancelSettlements(status: seq<Status>, settlements: seq<nat>): seq<nat>
    requires |status| == |settlements|
  {
    seq(|status|, i requires 0 <= i < |status| => settlements[i] + if status[i].Queued? then 1 else 0)
  }

  function Cancel(s: State): State
    requires |s.status| == |s.settlements|
  {
    s.(queues := map[], rotation := [], rotationIndex := 0, queued := 0, queuedBytes := 0,
       status := CancelStatus(s.status), settlements := CancelSettlements(s.status, s.settlements))
  }

  function Wait(s: State, waiter: nat): State {
    if IsIdle(s) then s.(woken := s.woken + {waiter}) else s.(idleWaiters := s.idleWaiters + {waiter})
  }

  // ----- Facts about the record -----

  lemma TallyPush(m: Measure, tasks: seq<Task>, status: seq<Status>, task: Task, st: Status)
    requires |tasks| == |status|
    ensures Tally(m, tasks + [task], status + [st]) == Tally(m, tasks, status) + Weigh(m, task, st)
  {
    var n := |tasks|;
    assert (tasks + [task])[..n] == tasks && (status + [st])[..n] == status;
  }

  lemma {:induction false} TallySet(m: Measure, tasks: seq<Task>, status: seq<Status>, i: nat, st: Status)
    requires |tasks| == |status| && i < |tasks|
    ensures Tally(m, tasks, status[i := st])
         == Tally(m, tasks, status) - Weigh(m, tasks[i], status[i]) + Weigh(m, tasks[i], st)
  {
    var last := |tasks| - 1;
    if i == last {
      assert status[i := st][..last] == status[..last];
    } else {
      TallySet(m, tasks[..last], status[..last], i, st);
      assert status[i := st][..last] == status[..last][i := st];
    }
  }

  lemma {:induction false} TallySame(m: Measure, tasks: seq<Task>, status: seq<Status>, other: seq<Status>)
    requires |tasks| == |status| == |other|
    requires forall i :: 0 <= i < |tasks| ==> Weigh(m, tasks[i], status[i]) == Weigh(m, tasks[i], other[i])
    ensures Tally(m, tasks, status) == Tally(m, tasks, other)
  {
    if tasks != [] {
      var last := |tasks| - 1;
      TallySame(m, tasks[..last], status[..last], other[..last]);
    }
  }

  lemma {:induction false} TallyZero(m: Measure, tasks: seq<Task>, status: seq<Status>)
    requires |tasks| == |status|
    requires forall i :: 0 <= i < |tasks| ==> Weigh(m, tasks[i], status[i]) == 0
    ensures Tally(m, tasks, status) == 0
  {
    if tasks != [] {
      var last := |tasks| - 1;
      TallyZero(m, tasks[..last], status[..last]);
    }
  }

  lemma {:induction false} TallyAtLeast(m: Measure, tasks: seq<Task>, status: seq<Status>, i: nat)
    requires |tasks| == |status| && i < |tasks|
    ensures Tally(m, tasks, status) >= Weigh(m, tasks[i], status[i])
  {
    var last := |tasks| - 1;
    if i < last {
      TallyAtLeast(m, tasks[..last], status[..last], i);
    }
  }

  lemma WaitingPush(tasks: seq<Task>, status: seq<Status>, task: Task, st: Status, c: Connection)
    requires |tasks| == |status|
    ensures Waiting(tasks + [task], status + [st], c)
         == Waiting(tasks, status, c) + if st.Queued? && task.connectionId == c then [task] else []
  {
    var n := |tasks|;
    assert (tasks + [task])[..n] == tasks && (status + [st])[..n] == status;
  }

  ghost predicate Numbered(tasks: seq<Task>) {
    forall i :: 0 <= i < |tasks| ==> tasks[i].id == i
  }

  lemma {:induction false} WaitingSound(tasks: seq<Task>, status: seq<Status>, c: Connection, k: nat)
    requires |tasks| == |status| && Numbered(tasks)
    ensures k < |Waiting(tasks, status, c)| ==>
              var task := Waiting(tasks, status, c)[k];
              task.id < |tasks| && tasks[task.id] == task && status[task.id].Queued? && task.connectionId == c
  {
    if tasks != [] {
      var last := |tasks| - 1;
      WaitingSound(tasks[..last], status[..last], c, k);
    }
  }

  lemma {:induction false} WaitingIncreasing(tasks: seq<Task>, status: seq<Status>, c: Connection, j: nat, k: nat)
    requires |tasks| == |status| && Numbered(tasks)
    requires j < k < |Waiting(tasks, status, c)|
    ensures Waiting(tasks, status, c)[j].id < Waiting(tasks, status, c)[k].id
  {
    var last := |tasks| - 1;
    var shorter := Waiting(tasks[..last], status[..last], c);
    if k < |shorter| {
      WaitingIncreasing(tasks[..last], status[..last], c, j, k);
    } else {
      WaitingSound(tasks[..last], status[..last], c, j);
    }
  }

  lemma {:induction false} WaitingComplete(tasks: seq<Task>, status: seq<Status>, i: nat) returns (k: nat)
    requires |tasks| == |status| && i < |tasks| && status[i].Queued?
    ensures k < |Waiting(tasks, status, tasks[i].connectionId)|
    ensures Waiting(tasks, status, tasks[i].connectionId)[k] == tasks[i]
  {
    var last := |tasks| - 1;
    if i < last {
      k := WaitingComplete(tasks[..last], status[..last], i);
    } else {
      k := |Waiting(tasks[..last], status[..last], tasks[i].connectionId)|;
    }
  }

  /** Changing the status of a task that was not queued, or of another connection's, leaves the queue. */
  lemma {:induction false} WaitingUntouched(tasks: seq<Task>, status: seq<Status>, c: Connection, i: nat, st: Status)
    requires |tasks| == |status| && i < |tasks| && !st.Queued?
    requires !status[i].Queued? || tasks[i].connectionId != c
    ensures Waiting(tasks, status[i := st], c) == Waiting(tasks, status, c)
  {
    var last := |tasks| - 1;
    if i == last {
      assert status[i := st][..last] == status[..last];
    } else {
      WaitingUntouched(tasks[..last], status[..last], c, i, st);
      assert status[i := st][..last] == status[..last][i := st];
    }
  }

  /** Taking the k-th waiting task out of the queued state removes it from the queue, and only it. */
  lemma {:induction false} WaitingRemoved(tasks: seq<Task>, status: seq<Status>, c: Connection, k: nat, st: Status)
    requires |tasks| == |status| && Numbered(tasks) && !st.Queued?
    requires k < |Waiting(tasks, status, c)|
    requires Waiting(tasks, status, c)[k].id < |tasks|
    ensures Waiting(tasks, status[Waiting(tasks, status, c)[k].id := st], c) == RemoveAt(Waiting(tasks, status, c), k)
  {
    var last := |tasks| - 1;
    var before := Waiting(tasks[..last], status[..last], c);
    WaitingSound(tasks, status, c, k);
    var i := Waiting(tasks, status, c)[k].id;
    if k < |before| {
      WaitingSound(tasks[..last], status[..last], c, k);
      WaitingRemoved(tasks[..last], status[..last], c, k, st);
      assert status[i := st][..last] == status[..last][i := st];
    } else {
      assert i == last;
      assert status[i := st][..last] == status[..last];
    }
  }

  lemma {:induction false} WaitingNone(tasks: seq<Task>, status: seq<Status>, c: Connection)
    requires |tasks| == |status|
    requires forall i :: 0 <= i < |tasks| ==> !status[i].Queued?
    ensures Waiting(tasks, status, c) == []
  {
    if tasks != [] {
      var last := |tasks| - 1;
      WaitingNone(tasks[..last], status[..last], c);
    }
  }
}
