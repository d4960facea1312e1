/**
  The limit of the fairness guarantee: connections that empty and rejoin behind the cursor can take every
  slot for as long as they like while another one waits below its cap.
 */
module FairQueueStarvation {
  import opened Wrappers
  import opened Rotation
  import opened FairQueue
  import opened FairQueueInvariant
  import opened FairQueueRuns
  import opened FairQueueOperations

  /** One slot in all. */
  predicate IsTight(l: Limits) {
    l.maxGlobalActive == 1 && l.maxConnectionActive == 1
  }

  lemma OnlyRunner(l: Limits, s: State, running: nat, other: nat)
    requires IsTight(l) && Inv(l, s) && s.active == 1
    requires running < |s.tasks| && s.status[running].Active? && other < |s.tasks| && s.status[other].Active?
    ensures running == other
  {
    TallySet(CountActive, s.tasks, s.status, running, Finished);
    if running != other {
      TallyAtLeast(CountActive, s.tasks, s.status[running := Finished], other);
    }
  }

  /** Nobody holds a slot once the one running task is released. */
  lemma ReleaseFreesAll(l: Limits, s: State, running: nat, c: Connection)
    requires IsTight(l) && Inv(l, s) && s.active == 1 && running < |s.tasks| && s.status[running].Active?
    ensures Inv(l, Release(s, running)) && ActiveOf(Release(s, running), c) == 0
  {
    ReleaseKeeps(l, s, running);
    var s1 := Release(s, running);
    forall i | 0 <= i < |s1.tasks| ensures !s1.status[i].Active? {
      if s1.status[i].Active? {
        OnlyRunner(l, s, running, i);
      }
    }
    TallyZero(CountActiveOf(c), s1.tasks, s1.status);
    assert ActiveOf(s1, c) == Tally(CountActiveOf(c), s1.tasks, s1.status);
  }

  /** With the one slot taken nothing more is dispatched. */
  lemma FullStays(l: Limits, s: State)
    requires IsTight(l) && Inv(l, s) && s.active == 1
    ensures Drain(l, s) == s
  {
  }

  lemma CompleteIsDrain(l: Limits, s: State, running: nat)
    requires IsTight(l) && Inv(l, s) && running < |s.tasks| && s.status[running].Active? && Inv(l, Release(s, running))
    ensures Execute(l, s, Complete(running)) == CheckIdle(Drain(l, Release(s, running)))
  {
  }

  lemma RunIsDrain(l: Limits, s: State, c: Connection)
    requires IsTight(l) && Inv(l, s) && Inv(l, Submit(l, s, c, 0)) && Admits(l, s, c, 0)
    ensures Execute(l, s, Run(c, 0)) == Drain(l, Submit(l, s, c, 0))
  {
  }

  /** The head of the queue at the cursor. */
  function AtCursor(s: State): Task
    requires s.rotationIndex < |s.rotation| && QueueOf(s, s.rotation[s.rotationIndex]) != []
  {
    QueueOf(s, s.rotation[s.rotationIndex])[0]
  }

  /** The cursor points at a connection whose oldest task is on record. */
  predicate HasTask(s: State) {
    s.rotationIndex < |s.rotation| && QueueOf(s, s.rotation[s.rotationIndex]) != [] &&
    AtCursor(s).id < |s.tasks| == |s.status| && s.tasks[AtCursor(s).id] == AtCursor(s) &&
    AtCursor(s).connectionId == s.rotation[s.rotationIndex]
  }

  lemma CursorHasTask(l: Limits, s: State)
    requires IsTight(l) && Inv(l, s) && s.rotation != []
    ensures HasTask(s) && s.queued > 0
  {
    var c := s.rotation[s.rotationIndex];
    assert c in s.rotation;
    OldestFirst(l, s, c);
    QueuedMeansCounted(l, s, c);
  }

  /** With one slot, the finish of the running task starts the oldest task at the cursor. */
  lemma CompleteIs(l: Limits, s: State, running: nat) returns (released: State)
    requires IsTight(l) && Inv(l, s) && s.active == 1 && s.rotation != []
    requires running < |s.tasks| && s.status[running].Active?
    ensures released == Release(s, running) && Shaped(released) && Recorded(released) && HasTask(released)
    ensures Execute(l, s, Complete(running))
         == MarkStarted(TakeAt(released, released.rotationIndex), AtCursor(released))
  {
    ReleaseKeeps(l, s, running);
    released := Release(s, running);
    CursorHasTask(l, released);
    ReleaseFreesAll(l, s, running, released.rotation[released.rotationIndex]);
    ReleasedDispatches(l, released);
    CompleteIsDrain(l, s, running);
  }

  lemma ReleasedDispatches(l: Limits, released: State)
    requires IsTight(l) && Inv(l, released) && released.active == 0 && released.rotation != []
    requires HasTask(released) && released.queued > 0
    requires ActiveOf(released, released.rotation[released.rotationIndex]) == 0
    ensures Drain(l, released) == MarkStarted(TakeAt(released, released.rotationIndex), AtCursor(released))
    ensures Drain(l, released).active == 1
  {
    DispatchAtCursor(l, released);
    DispatchKeeps(l, released);
    DispatchLess(l, released);
    FullStays(l, Dispatch(l, released));
  }

  lemma ReleaseFrame(s: State, id: nat)
    requires id < |s.tasks| && id < |s.status| && id < |s.settlements|
    ensures var s1 := Release(s, id);
            s1.rotation == s.rotation && s1.rotationIndex == s.rotationIndex && s1.queues == s.queues
            && s1.tasks == s.tasks && s1.active == s.active - 1 && s1.queued == s.queued
            && s1.queuedBytes == s.queuedBytes && s1.started == s.started && s1.accepting == s.accepting
  {
  }

  lemma DispatchAtCursor(l: Limits, s: State)
    requires IsTight(l) && Inv(l, s) && s.active == 0 && s.queued > 0 && s.rotation != []
    requires ActiveOf(s, s.rotation[s.rotationIndex]) == 0
    ensures CanDispatch(l, s) && QueueOf(s, s.rotation[s.rotationIndex]) != []
    ensures AtCursor(s).id < |s.status|
    ensures Dispatch(l, s) == MarkStarted(TakeAt(s, s.rotationIndex), AtCursor(s))
  {
    CursorHasTask(l, s);
    assert ScanOrder(s)[0] == s.rotation[s.rotationIndex];
    assert Pick(l, s, 0) == Some(0);
    DispatchIsTake(l, s);
    assert Position(s, 0) == s.rotationIndex;
  }

  /** What a finish leaves behind, in terms of the queues. */
  lemma CompleteFacts(l: Limits, s: State, running: nat) returns (s1: State, next: nat)
    requires IsTight(l) && Inv(l, s) && s.active == 1 && s.rotation != []
    requires running < |s.tasks| && s.status[running].Active?
    ensures s.rotationIndex < |s.rotation| && s1 == Execute(l, s, Complete(running)) && Inv(l, s1)
    ensures Served(s, s1, next)
  {
    var released := CompleteIs(l, s, running);
    next := AtCursor(released).id;
    s1 := MarkStarted(TakeAt(released, released.rotationIndex), AtCursor(released));
    ReleaseFrame(s, running);
    TakeFacts(s, released, next);
  }

  /** `s1` is `s` with the task `next` at the cursor started in place of the one that ran. */
  ghost predicate Served(s: State, s1: State, next: nat)
    requires s.rotationIndex < |s.rotation|
  {
    var i, c := s.rotationIndex, s.rotation[s.rotationIndex];
    && s1.accepting == s.accepting && s1.active == 1 && s1.queued == s.queued - 1 && s1.queuedBytes <= s.queuedBytes
    && |s1.tasks| == |s.tasks| == |s1.status|
    && next < |s1.tasks| && s1.status[next].Active? && s1.tasks[next].connectionId == c
    && s1.started == s.started + [s1.tasks[next]]
    && (forall d :: |QueueOf(s1, d)| == |QueueOf(s, d)| - if d == c then 1 else 0)
    && (forall d :: d != c ==> QueueOf(s1, d) == QueueOf(s, d))
    && (if |QueueOf(s, c)| == 1
        then s1.rotation == RemoveAt(s.rotation, i)
          && s1.rotationIndex == CursorAfterRemoval(|s.rotation|, i, Advance(|s.rotation|, i))
        else s1.rotation == s.rotation && s1.rotationIndex == Advance(|s.rotation|, i))
  }

  lemma TakeFacts(s: State, released: State, next: nat)
    requires Shaped(released) && released.rotation == s.rotation && released.rotationIndex == s.rotationIndex
    requires released.queues == s.queues && released.tasks == s.tasks
    requires HasTask(released) && AtCursor(released).id == next
    requires released.active == 0 && released.queued == s.queued && released.queuedBytes == s.queuedBytes
    requires released.started == s.started && released.accepting == s.accepting
    ensures Served(s, MarkStarted(TakeAt(released, released.rotationIndex), AtCursor(released)), next)
  {
    var i := s.rotationIndex;
    assert forall d :: QueueOf(released, d) == QueueOf(s, d);
    TakeAtShaped(released, i);
    TakeAtFrame(released, i);
    IndexUnique(s.rotation, i);
    var taken := TakeAt(released, i);
    var s1 := MarkStarted(taken, AtCursor(released));
    assert forall d :: QueueOf(s1, d) == QueueOf(taken, d);
  }

  /** `s1` is `s` with one more task queued on `c`. */
  ghost predicate Queuing(s: State, s1: State, c: Connection) {
    && s1.accepting == s.accepting && s1.active == s.active
    && s1.queued == s.queued + 1 && s1.queuedBytes == s.queuedBytes
    && s1.started == s.started && |s1.tasks| == |s.tasks| + 1 == |s.status| + 1 == |s1.status|
    && (forall i :: 0 <= i < |s.tasks| ==> s1.tasks[i] == s.tasks[i] && s1.status[i] == s.status[i])
    && (forall d :: |QueueOf(s1, d)| == |QueueOf(s, d)| + if d == c then 1 else 0)
    && (forall d :: d != c ==> QueueOf(s1, d) == QueueOf(s, d))
    && s1.rotation == (if c in s.rotation then s.rotation else s.rotation + [c])
    && s1.rotationIndex == s.rotationIndex
  }

  lemma AdmitQueues(s: State, c: Connection)
    requires |s.tasks| == |s.status| && (c in s.rotation <==> c in s.queues)
    ensures Queuing(s, Admit(s, Task(|s.tasks|, c, 0)), c)
  {
  }

  /** While the slot is taken, a submitted task within the limits just joins its queue. */
  lemma RunFacts(l: Limits, s: State, c: Connection) returns (s1: State)
    requires IsTight(l) && Inv(l, s) && s.accepting && s.active == 1
    requires s.queued < l.maxGlobalQueued && |QueueOf(s, c)| < l.maxConnectionQueued
    requires s.queuedBytes <= l.maxQueuedBytes
    ensures s1 == Execute(l, s, Run(c, 0)) && Inv(l, s1) && Queuing(s, s1, c)
  {
    SubmitKeeps(l, s, c, 0);
    s1 := Submit(l, s, c, 0);
    AdmitQueues(s, c);
    FullStays(l, s1);
    RunIsDrain(l, s, c);
  }

  /** A connection other than the running one holds no slot, so it waits below its cap. */
  lemma OthersAreBelowCap(l: Limits, s: State, b: Connection, running: nat)
    requires IsTight(l) && Inv(l, s) && s.active == 1 && running < |s.tasks| && s.status[running].Active?
    requires s.tasks[running].connectionId != b
    ensures BelowCap(l, s, b)
  {
    forall i | 0 <= i < |s.tasks| && s.status[i].Active? ensures s.tasks[i].connectionId != b {
      OnlyRunner(l, s, running, i);
    }
    TallyZero(CountActiveOf(b), s.tasks, s.status);
    assert ActiveOf(s, b) == Tally(CountActiveOf(b), s.tasks, s.status);
  }

  /** One more operation at the end of a history. */
  lemma Extend(l: Limits, states: seq<State>, ops: seq<Operation>, op: Operation, s': State)
    requires IsHistory(l, states, ops) && Inv(l, states[|ops|]) && Possible(states[|ops|], op)
    requires s' == Execute(l, states[|ops|], op)
    ensures IsHistory(l, states + [s'], ops + [op]) && (states + [s'])[|ops| + 1] == s'
  {
    var states', ops' := states + [s'], ops + [op];
    forall i | 0 <= i < |ops'| ensures OperationAt(l, states', ops', i) {
      if i < |ops| {
        assert OperationAt(l, states, ops, i);
      }
    }
  }

  // ----- The situation, and one round of it -----

  /** `b` is queued just behind the cursor; the connections `xs` are ahead of it with one task each; someone runs. */
  ghost predicate LinedUp(l: Limits, s: State, b: Connection, xs: seq<Connection>, running: nat) {
    && xs != [] && b !in xs && NoDuplicates(xs)
    && s.rotation == [b] + xs && s.rotationIndex == 1
    && (forall x :: x in xs ==> |QueueOf(s, x)| == 1)
    && s.accepting && s.active == 1 && s.queued < l.maxGlobalQueued && s.queuedBytes <= l.maxQueuedBytes
    && running < |s.tasks| == |s.status| && s.status[running].Active?
  }

  ghost predicate Starving(l: Limits, s: State, b: Connection, xs: seq<Connection>, running: nat) {
    && IsTight(l) && l.maxConnectionQueued >= 1 && Inv(l, s)
    && LinedUp(l, s, b, xs, running) && s.tasks[running].connectionId != b
  }

  /** From `s` to `s'` the queue of `b` is untouched, `b` is waiting below its cap, and only others start. */
  ghost predicate SkipStep(l: Limits, s: State, s': State, b: Connection) {
    && QueueOf(s', b) == QueueOf(s, b) && b in s'.rotation && BelowCap(l, s', b)
    && s.started <= s'.started
    && (forall k :: |s.started| <= k < |s'.started| ==> s'.started[k].connectionId != b)
  }

  lemma ServingSkips(l: Limits, s: State, s1: State, next: nat, b: Connection)
    requires s.rotationIndex < |s.rotation| && Served(s, s1, next) && s.rotation[s.rotationIndex] != b
    requires b in s1.rotation && BelowCap(l, s1, b)
    ensures SkipStep(l, s, s1, b) && |s1.started| == |s.started| + 1
  {
  }

  lemma QueuingSkips(l: Limits, s: State, s1: State, c: Connection, b: Connection)
    requires Queuing(s, s1, c) && b != c && b in s1.rotation && BelowCap(l, s1, b)
    ensures SkipStep(l, s, s1, b) && |s1.started| == |s.started|
  {
  }

  lemma NoQueue(l: Limits, s: State, y: Connection)
    requires Inv(l, s) && y !in s.rotation
    ensures QueueOf(s, y) == []
  {
    assert y in s.rotation <==> y in s.queues;
  }

  /** A connection joins at the end of the array. */
  ghost predicate Joined(s1: State, b: Connection, xs: seq<Connection>, y: Connection, running: nat) {
    && s1.rotation == [b] + xs + [y] && s1.rotationIndex == 1 && s1.accepting && s1.active == 1
    && (forall x :: x in xs ==> |QueueOf(s1, x)| == 1) && |QueueOf(s1, y)| == 1
    && running < |s1.tasks| == |s1.status| && s1.status[running].Active?
  }

  lemma JoinLines(l: Limits, s: State, s1: State, b: Connection, xs: seq<Connection>, y: Connection, running: nat)
    requires LinedUp(l, s, b, xs, running) && Queuing(s, s1, y) && y !in xs && y != b && QueueOf(s, y) == []
    ensures Joined(s1, b, xs, y, running) && s1.tasks[running] == s.tasks[running]
  {
  }

  /** The first of the line is served and leaves the rotation; the cursor stays just past `b`. */
  lemma FirstLeaves(b: Connection, xs: seq<Connection>, more: seq<Connection>)
    requires xs != []
    ensures RemoveAt([b] + xs + more, 1) == [b] + (xs[1..] + more)
    ensures |xs| + |more| >= 2 ==>
              CursorAfterRemoval(|xs| + |more| + 1, 1, Advance(|xs| + |more| + 1, 1)) == 1
  {
  }

  lemma ServeLines(l: Limits, s: State, s1: State, s2: State, b: Connection, xs: seq<Connection>, y: Connection,
                   running: nat, next: nat)
    requires LinedUp(l, s, b, xs, running) && Queuing(s, s1, y) && Joined(s1, b, xs, y, running)
    requires y !in xs && y != b && Served(s1, s2, next)
    ensures LinedUp(l, s2, b, xs[1..] + [y], next) && s2.tasks[next].connectionId == xs[0]
  {
    FirstLeaves(b, xs, [y]);
    assert s1.rotation[1] == xs[0] && xs[0] in xs;
    forall x | x in xs[1..] + [y] ensures |QueueOf(s2, x)| == 1 {
      assert x != xs[0];
      assert x in xs || x == y;
    }
  }

  /** A join and a finish: the line moves up by one. */
  lemma OneRound(l: Limits, s: State, b: Connection, xs: seq<Connection>, y: Connection, running: nat)
    returns (middle: State, s': State, next: nat)
    requires IsTight(l) && l.maxConnectionQueued >= 1 && Inv(l, s) && LinedUp(l, s, b, xs, running)
    requires y !in xs && y != b
    ensures middle == Execute(l, s, Run(y, 0)) && Inv(l, middle) && Queuing(s, middle, y)
    ensures Joined(middle, b, xs, y, running) && middle.tasks[running] == s.tasks[running]
    ensures s' == Execute(l, middle, Complete(running)) && Inv(l, s') && Served(middle, s', next)
    ensures LinedUp(l, s', b, xs[1..] + [y], next) && s'.tasks[next].connectionId == xs[0]
  {
    NoQueue(l, s, y);
    middle := RunFacts(l, s, y);
    JoinLines(l, s, middle, b, xs, y, running);
    s', next := CompleteFacts(l, middle, running);
    ServeLines(l, s, middle, s', b, xs, y, running, next);
  }

  /**
    Starvation: two operations, a new task of `y` and the finish of the running task, serve the first of the line,
    leave the queue of `b` untouched, and end in the same situation with `y` at the end of the line. Repeating them
    serves the others for ever, while `b` stays at the same distance from the cursor and below its cap.
   */
  lemma StarveOnce(l: Limits, s: State, b: Connection, xs: seq<Connection>, y: Connection, running: nat)
    returns (middle: State, s': State, next: nat)
    requires Starving(l, s, b, xs, running) && y !in xs && y != b
    ensures middle == Execute(l, s, Run(y, 0)) && Inv(l, middle) && y !in s.rotation
    ensures s' == Execute(l, middle, Complete(running)) && Starving(l, s', b, xs[1..] + [y], next)
    ensures Possible(middle, Complete(running))
    ensures SkipStep(l, s, middle, b) && |middle.started| == |s.started|
    ensures SkipStep(l, middle, s', b) && |s'.started| == |s.started| + 1
  {
    middle, s', next := OneRound(l, s, b, xs, y, running);
    OthersAreBelowCap(l, middle, b, running);
    OthersAreBelowCap(l, s', b, next);
    QueuingSkips(l, s, middle, y, b);
    ServingSkips(l, middle, s', next, b);
  }

  // ----- Over whole histories -----

  /** From moment `from` on, `b` waits below its cap with its queue untouched, and only others start. */
  ghost predicate PassedOver(l: Limits, states: seq<State>, from: nat, b: Connection) {
    from < |states| &&
    forall m {:trigger SkipStep(l, states[from], states[m], b)} :: from <= m < |states| ==>
      SkipStep(l, states[from], states[m], b)
  }

  lemma PassedOverFrom(l: Limits, states: seq<State>, from: nat, b: Connection)
    requires |states| == from + 1 && SkipStep(l, states[from], states[from], b)
    ensures PassedOver(l, states, from, b)
  {
  }

  lemma SkipTwice(l: Limits, s: State, middle: State, s': State, b: Connection)
    requires SkipStep(l, s, middle, b) && SkipStep(l, middle, s', b)
    ensures SkipStep(l, s, s', b)
  {
  }

  lemma PassedOverMore(l: Limits, states: seq<State>, from: nat, b: Connection, s': State)
    requires PassedOver(l, states, from, b) && SkipStep(l, states[|states| - 1], s', b)
    ensures PassedOver(l, states + [s'], from, b)
  {
    var longer := states + [s'];
    assert SkipStep(l, states[from], states[|states| - 1], b);
    SkipTwice(l, states[from], states[|states| - 1], s', b);
    forall m | from <= m < |longer| ensures SkipStep(l, longer[from], longer[m], b) {
      assert m < |states| ==> SkipStep(l, states[from], states[m], b);
    }
  }

  /** How many of the operations from `from` up to `n` added a connection to the rotation. */
  function Joins(states: seq<State>, ops: seq<Operation>, from: nat, n: nat): nat
    requires n <= |ops| <= |states|
  {
    if n <= from then 0
    else Joins(states, ops, from, n - 1) + if ops[n - 1].Run? && ops[n - 1].c !in states[n - 1].rotation then 1 else 0
  }

  lemma {:induction false} JoinsOfPrefix(
    states: seq<State>, ops: seq<Operation>, states': seq<State>, ops': seq<Operation>, from: nat, n: nat)
    requires n <= |ops| <= |states| && |ops'| <= |states'| && states <= states' && ops <= ops'
    ensures Joins(states', ops', from, n) == Joins(states, ops, from, n)
  {
    if n > from {
      JoinsOfPrefix(states, ops, states', ops', from, n - 1);
    }
  }

  lemma JoinsOneMore(states: seq<State>, ops: seq<Operation>, from: nat, op: Operation, s': State)
    requires |states| == |ops| + 1 && from <= |ops|
    ensures Joins(states + [s'], ops + [op], from, |ops| + 1) == Joins(states, ops, from, |ops|)
              + if op.Run? && op.c !in states[|ops|].rotation then 1 else 0
  {
    JoinsOfPrefix(states, ops, states + [s'], ops + [op], from, |ops|);
  }

  /** How far `b` is from the cursor. */
  ghost predicate AtDistance(s: State, b: Connection, d: nat) {
    InRange(s.rotation, s.rotationIndex) && d < |ScanOrder(s)| && ScanOrder(s)[d] == b && b !in ScanOrder(s)[..d]
  }

  lemma LinedUpAtDistance(l: Limits, s: State, b: Connection, xs: seq<Connection>, running: nat)
    requires LinedUp(l, s, b, xs, running)
    ensures AtDistance(s, b, |xs|)
  {
    assert Cycle([b] + xs, 1) == xs + [b];
    assert (xs + [b])[..|xs|] == xs;
  }

  /** Since `from`, when `b` was at distance `d`, so many tasks started, none of them of `b`, and so many joined. */
  ghost predicate Waited(
    l: Limits, states: seq<State>, ops: seq<Operation>, from: nat, b: Connection, d: nat, starts: nat, joins: nat)
  {
    && IsHistory(l, states, ops) && PassedOver(l, states, from, b) && AtDistance(states[from], b, d)
    && |states[|ops|].started| == |states[from].started| + starts && Joins(states, ops, from, |ops|) == joins
  }

  lemma Assemble(l: Limits, states: seq<State>, ops: seq<Operation>, from: nat, b: Connection, d: nat, starts: nat,
                 joins: nat, s: State)
    requires IsHistory(l, states, ops) && states[|ops|] == s && PassedOver(l, states, from, b)
    requires AtDistance(states[from], b, d) && |s.started| == |states[from].started| + starts
    requires Joins(states, ops, from, |ops|) == joins
    ensures Waited(l, states, ops, from, b, d, starts, joins)
  {
  }

  /** One more operation during which `b` is passed over. */
  lemma WaitMore(l: Limits, states: seq<State>, ops: seq<Operation>, from: nat, b: Connection, d: nat, starts: nat,
                 joins: nat, op: Operation, s': State, more: nat, join: nat)
    returns (states': seq<State>, ops': seq<Operation>)
    requires Waited(l, states, ops, from, b, d, starts, joins)
    requires Inv(l, states[|ops|]) && Possible(states[|ops|], op) && s' == Execute(l, states[|ops|], op)
    requires SkipStep(l, states[|ops|], s', b) && |s'.started| == |states[|ops|].started| + more
    requires join == if op.Run? && op.c !in states[|ops|].rotation then 1 else 0
    ensures |states'| == |ops'| + 1 && states'[|ops'|] == s'
    ensures Waited(l, states', ops', from, b, d, starts + more, joins + join)
  {
    states', ops' := states + [s'], ops + [op];
    Extend(l, states, ops, op, s');
    PassedOverMore(l, states, from, b, s');
    JoinsOneMore(states, ops, from, op, s');
    assert states'[from] == states[from];
    Assemble(l, states', ops', from, b, d, starts + more, joins + join, s');
  }

  ghost predicate Starved(
    l: Limits, states: seq<State>, ops: seq<Operation>, from: nat, b: Connection, xs: seq<Connection>, y: Connection,
    running: nat, n: nat)
  {
    && Waited(l, states, ops, from, b, |xs|, n, n) && Starving(l, states[|ops|], b, xs, running)
    && y !in xs && y != b
  }

  lemma OneMoreRound(
    l: Limits, states: seq<State>, ops: seq<Operation>, from: nat, b: Connection, xs: seq<Connection>, y: Connection,
    running: nat, n: nat)
    returns (states': seq<State>, ops': seq<Operation>, next: nat)
    requires Starved(l, states, ops, from, b, xs, y, running, n)
    ensures Starved(l, states', ops', from, b, xs[1..] + [y], xs[0], next, n + 1)
  {
    var middle, s';
    middle, s', next := StarveOnce(l, states[|ops|], b, xs, y, running);
    states', ops' := WaitRound(l, states, ops, from, b, |xs|, n, y, middle, running, s');
    FirstIsNew(b, xs, y);
    StillStarved(l, states', ops', from, b, xs[1..] + [y], xs[0], next, n + 1, s');
  }

  /** A join and a finish during which `b` is passed over. */
  lemma WaitRound(l: Limits, states: seq<State>, ops: seq<Operation>, from: nat, b: Connection, d: nat, n: nat,
                  y: Connection, middle: State, running: nat, s': State)
    returns (states': seq<State>, ops': seq<Operation>)
    requires Waited(l, states, ops, from, b, d, n, n) && Inv(l, states[|ops|]) && y !in states[|ops|].rotation
    requires middle == Execute(l, states[|ops|], Run(y, 0)) && Possible(middle, Complete(running))
    requires s' == Execute(l, middle, Complete(running))
    requires SkipStep(l, states[|ops|], middle, b) && |middle.started| == |states[|ops|].started|
    requires SkipStep(l, middle, s', b) && |s'.started| == |middle.started| + 1
    ensures |states'| == |ops'| + 1 && states'[|ops'|] == s' && Waited(l, states', ops', from, b, d, n + 1, n + 1)
  {
    states', ops' := WaitMore(l, states, ops, from, b, d, n, n, Run(y, 0), middle, 0, 1);
    states', ops' := WaitMore(l, states', ops', from, b, d, n, n + 1, Complete(running), s', 1, 0);
  }

  lemma FirstIsNew(b: Connection, xs: seq<Connection>, y: Connection)
    requires xs != [] && NoDuplicates(xs) && y !in xs && b !in xs
    ensures xs[0] !in xs[1..] + [y] && xs[0] != b && |xs[1..] + [y]| == |xs|
  {
    assert xs[0] in xs;
  }

  lemma StillStarved(
    l: Limits, states: seq<State>, ops: seq<Operation>, from: nat, b: Connection, xs: seq<Connection>, y: Connection,
    running: nat, n: nat, s: State)
    requires Waited(l, states, ops, from, b, |xs|, n, n) && states[|ops|] == s && Starving(l, s, b, xs, running)
    requires y !in xs && y != b
    ensures Starved(l, states, ops, from, b, xs, y, running, n)
  {
  }

  lemma ServedLines(l: Limits, s: State, s': State, b: Connection, xs: seq<Connection>, running: nat, next: nat)
    requires LinedUp(l, s, b, xs, running) && Served(s, s', next)
    ensures s'.tasks[next].connectionId == xs[0] != b && b in s'.rotation
    ensures |xs| > 1 ==> LinedUp(l, s', b, xs[1..], next)
  {
    FirstLeaves(b, xs, []);
    assert [b] + xs + [] == [b] + xs && xs[1..] + [] == xs[1..];
    assert s.rotation[1] == xs[0] && xs[0] in xs;
    forall x | x in xs[1..] ensures |QueueOf(s', x)| == 1 {
      assert x in xs && x != xs[0];
    }
    assert ([b] + xs[1..])[0] == b;
  }

  /** Serving the first of the line when nobody joins. */
  lemma ServeFirst(l: Limits, s: State, b: Connection, xs: seq<Connection>, running: nat) returns (s': State, next: nat)
    requires Starving(l, s, b, xs, running)
    ensures Inv(l, s) && Possible(s, Complete(running)) && s' == Execute(l, s, Complete(running))
    ensures SkipStep(l, s, s', b) && |s'.started| == |s.started| + 1
    ensures |xs| > 1 ==> Starving(l, s', b, xs[1..], next)
  {
    s', next := CompleteFacts(l, s, running);
    ServedLines(l, s, s', b, xs, running, next);
    OthersAreBelowCap(l, s', b, next);
    assert s.rotation[1] == xs[0];
    ServingSkips(l, s, s', next, b);
  }

  /** Finishes serve the whole line, one connection each. */
  lemma {:induction false} ServeAll(
    l: Limits, states: seq<State>, ops: seq<Operation>, from: nat, b: Connection, d: nat, xs: seq<Connection>,
    running: nat, starts: nat, joins: nat)
    returns (states': seq<State>, ops': seq<Operation>)
    requires Waited(l, states, ops, from, b, d, starts, joins) && Starving(l, states[|ops|], b, xs, running)
    ensures Waited(l, states', ops', from, b, d, starts + |xs|, joins)
    decreases |xs|
  {
    var s', next := ServeFirst(l, states[|ops|], b, xs, running);
    states', ops' := WaitMore(l, states, ops, from, b, d, starts, joins, Complete(running), s', 1, 0);
    if |xs| > 1 {
      states', ops' := ServeAll(l, states', ops', from, b, d, xs[1..], next, starts + 1, joins);
    }
  }

  // ----- The situation arises -----

  /** Room for the line, for two tasks of `b` and for one that joins. */
  predicate HasRoom(l: Limits, d: nat) {
    IsTight(l) && l.maxGlobalQueued >= d + 3 && l.maxConnectionQueued >= 2
  }

  /** `b` with two tasks, and the connections `xs` queued after it with one each; the cursor is at `b`. */
  ghost predicate Gathered(l: Limits, s: State, b: Connection, xs: seq<Connection>, running: nat) {
    && b !in xs && NoDuplicates(xs) && s.rotation == [b] + xs && s.rotationIndex == 0
    && |QueueOf(s, b)| == 2 && (forall x :: x in xs ==> |QueueOf(s, x)| == 1)
    && s.accepting && s.active == 1 && s.queued == |xs| + 2 && s.queuedBytes <= l.maxQueuedBytes
    && running < |s.tasks| == |s.status| && s.status[running].Active?
  }

  ghost predicate Gathering(l: Limits, s: State, b: Connection, xs: seq<Connection>, running: nat) {
    Inv(l, s) && Gathered(l, s, b, xs, running)
  }

  /** The first task is started at once. */
  lemma FirstRun(l: Limits, z: Connection) returns (s1: State)
    requires IsTight(l)
    ensures Inv(l, INITIAL) && s1 == Execute(l, INITIAL, Run(z, 0)) && Inv(l, s1)
    ensures s1.accepting && s1.active == 1 && s1.queued == 0 && s1.queuedBytes == 0 && s1.rotation == []
    ensures s1.rotationIndex == 0 && |s1.tasks| == |s1.status| == 1 && s1.status[0].Active?
    ensures forall c :: QueueOf(s1, c) == []
  {
    InitialHolds(l);
    SubmitKeeps(l, INITIAL, z, 0);
    FastPathStarts(l, INITIAL, z, 0);
    s1 := Execute(l, INITIAL, Run(z, 0));
    EmptyWhenNoneQueued(l, s1);
  }

  lemma QueueTwo(l: Limits, s1: State, s2: State, s3: State, b: Connection)
    requires s1.rotation == [] && s1.rotationIndex == 0 && s1.queued == 0 && s1.queuedBytes == 0
    requires s1.accepting && s1.active == 1 && |s1.tasks| == |s1.status| == 1 && s1.status[0].Active?
    requires QueueOf(s1, b) == [] && Queuing(s1, s2, b) && Queuing(s2, s3, b)
    ensures Gathered(l, s3, b, [], 0)
  {
  }

  lemma StartGathering(l: Limits, b: Connection, z: Connection) returns (states: seq<State>, ops: seq<Operation>)
    requires HasRoom(l, 0)
    ensures IsHistory(l, states, ops) && Gathering(l, states[|ops|], b, [], 0)
  {
    var s1 := FirstRun(l, z);
    var s2, s3 := TwoRuns(l, s1, b);
    states, ops := ThreeOps(l, Run(z, 0), s1, Run(b, 0), s2, Run(b, 0), s3);
  }

  lemma ThreeOps(l: Limits, op1: Operation, s1: State, op2: Operation, s2: State, op3: Operation, s3: State)
    returns (states: seq<State>, ops: seq<Operation>)
    requires op1.Run? && op2.Run? && op3.Run? && Inv(l, INITIAL) && s1 == Execute(l, INITIAL, op1)
    requires s2 == Execute(l, s1, op2) && s3 == Execute(l, s2, op3)
    ensures IsHistory(l, states, ops) && states[|ops|] == s3
  {
    Extend(l, [INITIAL], [], op1, s1);
    Extend(l, [INITIAL] + [s1], [] + [op1], op2, s2);
    Extend(l, [INITIAL] + [s1] + [s2], [] + [op1] + [op2], op3, s3);
    states, ops := [INITIAL] + [s1] + [s2] + [s3], [] + [op1] + [op2] + [op3];
  }

  lemma TwoRuns(l: Limits, s1: State, b: Connection) returns (s2: State, s3: State)
    requires HasRoom(l, 0) && Inv(l, s1) && s1.accepting && s1.active == 1 && s1.queued == 0 && s1.queuedBytes == 0
    requires s1.rotation == [] && s1.rotationIndex == 0 && |s1.tasks| == |s1.status| == 1 && s1.status[0].Active?
    requires QueueOf(s1, b) == []
    ensures s2 == Execute(l, s1, Run(b, 0)) && Inv(l, s2) && s3 == Execute(l, s2, Run(b, 0))
    ensures Gathering(l, s3, b, [], 0)
  {
    s2 := RunFacts(l, s1, b);
    s3 := RunFacts(l, s2, b);
    QueueTwo(l, s1, s2, s3, b);
  }

  lemma GatheredOne(l: Limits, s: State, s': State, b: Connection, xs: seq<Connection>, x: Connection, running: nat)
    requires Gathered(l, s, b, xs, running) && Queuing(s, s', x) && x !in xs && x != b && QueueOf(s, x) == []
    ensures Gathered(l, s', b, xs + [x], running)
  {
    assert [b] + xs + [x] == [b] + (xs + [x]);
  }

  lemma GatherOne(l: Limits, s: State, b: Connection, xs: seq<Connection>, x: Connection, running: nat)
    returns (s': State)
    requires IsTight(l) && l.maxConnectionQueued >= 1 && s.queued < l.maxGlobalQueued
    requires Gathering(l, s, b, xs, running) && x !in xs && x != b
    ensures s' == Execute(l, s, Run(x, 0)) && Gathering(l, s', b, xs + [x], running)
  {
    NoQueue(l, s, x);
    s' := RunFacts(l, s, x);
    GatheredOne(l, s, s', b, xs, x, running);
  }

  lemma GatherMore(l: Limits, states: seq<State>, ops: seq<Operation>, s: State, b: Connection, xs: seq<Connection>,
                   x: Connection)
    returns (states': seq<State>, ops': seq<Operation>)
    requires HasRoom(l, |xs|) && IsHistory(l, states, ops) && states[|ops|] == s && Gathering(l, s, b, xs, 0)
    requires x !in xs && x != b
    ensures IsHistory(l, states', ops') && Gathering(l, states'[|ops'|], b, xs + [x], 0)
  {
    var s' := GatherOne(l, s, b, xs, x, 0);
    Extend(l, states, ops, Run(x, 0), s');
    states', ops' := states + [s'], ops + [Run(x, 0)];
  }

  lemma {:induction false} GatherAll(l: Limits, b: Connection, xs: seq<Connection>, z: Connection)
    returns (states: seq<State>, ops: seq<Operation>)
    requires HasRoom(l, |xs|) && b !in xs && NoDuplicates(xs)
    ensures IsHistory(l, states, ops) && Gathering(l, states[|ops|], b, xs, 0)
    decreases |xs|
  {
    if xs == [] {
      states, ops := StartGathering(l, b, z);
    } else {
      var init, last := xs[..|xs| - 1], xs[|xs| - 1];
      assert xs == init + [last] && last !in init && last in xs;
      states, ops := GatherAll(l, b, init, z);
      states, ops := GatherMore(l, states, ops, states[|ops|], b, init, last);
    }
  }

  lemma Stands(l: Limits, s: State, s': State, b: Connection, xs: seq<Connection>, running: nat, next: nat)
    requires Gathered(l, s, b, xs, running) && xs != [] && s.queued < l.maxGlobalQueued && Served(s, s', next)
    ensures LinedUp(l, s', b, xs, next)
  {
    assert s.rotation[0] == b && Advance(|s.rotation|, 0) == 1;
  }

  /** The finish of the first task serves `b`, which keeps its place: the line stands. */
  lemma LineStands(l: Limits, s: State, b: Connection, xs: seq<Connection>, running: nat) returns (s': State, next: nat)
    requires IsTight(l) && Gathering(l, s, b, xs, running) && xs != [] && s.queued < l.maxGlobalQueued
    ensures Possible(s, Complete(running)) && s' == Execute(l, s, Complete(running)) && Inv(l, s')
    ensures LinedUp(l, s', b, xs, next)
  {
    s', next := CompleteFacts(l, s, running);
    Stands(l, s, s', b, xs, running, next);
  }

  lemma LineArises(l: Limits, b: Connection, xs: seq<Connection>, z: Connection)
    returns (states: seq<State>, ops: seq<Operation>, running: nat)
    requires HasRoom(l, |xs|) && xs != [] && b !in xs && NoDuplicates(xs)
    ensures IsHistory(l, states, ops) && Inv(l, states[|ops|]) && LinedUp(l, states[|ops|], b, xs, running)
  {
    states, ops := GatherAll(l, b, xs, z);
    var s';
    s', running := LineStands(l, states[|ops|], b, xs, 0);
    Extend(l, states, ops, Complete(0), s');
    states, ops := states + [s'], ops + [Complete(0)];
  }

  /** The situation arises, at every distance: a history from the empty queue that ends in it. */
  lemma StarvingArises(l: Limits, b: Connection, xs: seq<Connection>, y: Connection, z: Connection)
    returns (states: seq<State>, ops: seq<Operation>, running: nat)
    requires HasRoom(l, |xs|) && xs != [] && b !in xs && NoDuplicates(xs) && y !in xs && y != b
    ensures IsHistory(l, states, ops) && Starving(l, states[|ops|], b, xs[1..] + [y], running)
  {
    var first;
    states, ops, first := LineArises(l, b, xs, z);
    var middle, s';
    middle, s', running := OneRound(l, states[|ops|], b, xs, y, first);
    Extend(l, states, ops, Run(y, 0), middle);
    Extend(l, states + [middle], ops + [Run(y, 0)], Complete(first), s');
    states, ops := states + [middle] + [s'], ops + [Run(y, 0)] + [Complete(first)];
    assert xs[0] in xs;
  }

  lemma NotYetStarved(l: Limits, b: Connection, xs: seq<Connection>, y: Connection, z: Connection)
    returns (states: seq<State>, ops: seq<Operation>, running: nat)
    requires HasRoom(l, |xs|) && xs != [] && b !in xs && NoDuplicates(xs) && y !in xs && y != b
    ensures Starved(l, states, ops, |ops|, b, xs[1..] + [y], xs[0], running, 0)
  {
    states, ops, running := StarvingArises(l, b, xs, y, z);
    SkipNothing(l, states[|ops|], b, xs[1..] + [y], running);
    PassedOverFrom(l, states, |ops|, b);
    assert xs[0] in xs && xs[0] !in xs[1..];
    Assemble(l, states, ops, |ops|, b, |xs|, 0, 0, states[|ops|]);
  }

  lemma SkipNothing(l: Limits, s: State, b: Connection, xs: seq<Connection>, running: nat)
    requires Starving(l, s, b, xs, running)
    ensures SkipStep(l, s, s, b) && AtDistance(s, b, |xs|)
  {
    LinedUpAtDistance(l, s, b, xs, running);
    OthersAreBelowCap(l, s, b, running);
  }

  /** No bound on the dispatches a waiting connection below its cap can be passed over: at every distance from the
      cursor and for every n there is a history in which n tasks of others start, and n connections join, while `b`
      waits throughout. */
  lemma {:induction false} StarvedForLong(
    l: Limits, b: Connection, xs: seq<Connection>, y: Connection, z: Connection, n: nat)
    returns (states: seq<State>, ops: seq<Operation>, from: nat, line: seq<Connection>, next: Connection, running: nat)
    requires HasRoom(l, |xs|) && xs != [] && b !in xs && NoDuplicates(xs) && y !in xs && y != b
    ensures |line| == |xs| && Starved(l, states, ops, from, b, line, next, running, n)
    decreases n
  {
    if n == 0 {
      states, ops, running := NotYetStarved(l, b, xs, y, z);
      from, line, next := |ops|, xs[1..] + [y], xs[0];
    } else {
      states, ops, from, line, next, running := StarvedForLong(l, b, xs, y, z, n - 1);
      states, ops, running := OneMoreRound(l, states, ops, from, b, line, next, running, n - 1);
      line, next := line[1..] + [next], line[0];
    }
  }

  /** The bound on waiting is tight at every distance d >= 1 from the cursor and for every number of joins: `b` can
      be passed over by exactly d dispatches more than there are joins. */
  lemma WaitBoundIsTight(l: Limits, b: Connection, xs: seq<Connection>, y: Connection, z: Connection, n: nat)
    returns (states: seq<State>, ops: seq<Operation>, from: nat)
    requires HasRoom(l, |xs|) && xs != [] && b !in xs && NoDuplicates(xs) && y !in xs && y != b
    ensures Waited(l, states, ops, from, b, |xs|, n + |xs|, n)
  {
    var line, next, running;
    states, ops, from, line, next, running := StarvedForLong(l, b, xs, y, z, n);
    states, ops := ServeAll(l, states, ops, from, b, |xs|, line, running, n, n);
  }
}
