/** Round-robin fairness of the fair queue, over whole runs. */
module FairQueueFairness {
  import opened Wrappers
  import opened Rotation
  import opened FairQueue
  import opened FairQueueInvariant
  import opened FairQueueRuns

  /** The connections with queued tasks, in the order of the scan. */
  function Order(s: State): seq<Connection> {
    if InRange(s.rotation, s.rotationIndex) then Cycle(s.rotation, s.rotationIndex) else []
  }

  lemma OrderOfShaped(s: State)
    requires Shaped(s)
    ensures NoDuplicates(Order(s)) && |Order(s)| == |s.rotation|
    ensures forall c :: c in Order(s) <==> c in s.rotation
  {
    CycleNoDuplicates(s.rotation, s.rotationIndex);
    forall c ensures c in Order(s) <==> c in s.rotation {
      CycleMembers(s.rotation, s.rotationIndex, c);
    }
  }

  // ----- How one step changes the scan order -----

  datatype Change =
    | Same
    | Joined(at: nat, c: Connection)
    | Dropped(place: nat)
    | Turned(k: nat)
    | Cleared

  /** The order after the scan has passed `k` connections and stopped at the next one. */
  ghost predicate Changed(order: seq<Connection>, order': seq<Connection>, change: Change) {
    match change
    case Same => order' == order
    case Joined(at, c) => at <= |order| && c !in order && order' == order[..at] + [c] + order[at..]
    case Dropped(place) => place < |order| && order' == RemoveAt(order, place)
    case Turned(k) => k < |order| &&
                      (order' == order[k + 1..] + order[..k] || order' == order[k + 1..] + order[..k] + [order[k]])
    case Cleared => order' == []
  }

  lemma {:induction false} RotateBy(rotation: seq<Connection>, index: nat, k: nat, p: nat)
    requires index < |rotation| && k < |rotation|
    requires p == if index + k < |rotation| then index + k else index + k - |rotation|
    ensures Cycle(rotation, p) == Cycle(rotation, index)[k..] + Cycle(rotation, index)[..k]
  {
    var cycle := Cycle(rotation, index);
    if index + k < |rotation| {
      assert cycle[k..] == rotation[p..] + rotation[..index];
      assert cycle[..k] == rotation[index..p];
      assert rotation[..p] == rotation[..index] + rotation[index..p];
    } else {
      assert cycle[k..] == rotation[p..index];
      assert cycle[..k] == rotation[index..] + rotation[..p];
      assert rotation[p..] == rotation[p..index] + rotation[index..];
    }
  }

  /** The cursor after the scan stopped `k` places on, before any removal. */
  lemma PassedOrder(s: State, k: nat)
    requires s.rotationIndex < |s.rotation| && k < |s.rotation|
    ensures var order := Cycle(s.rotation, s.rotationIndex);
            Cycle(s.rotation, Advance(|s.rotation|, Position(s, k))) == order[k + 1..] + order[..k] + [order[k]]
  {
    var order, p := Cycle(s.rotation, s.rotationIndex), Position(s, k);
    RotateBy(s.rotation, s.rotationIndex, k, p);
    AdvanceRotatesCycle(s.rotation, p);
    assert Cycle(s.rotation, p)[1..] == order[k + 1..] + order[..k];
  }

  /** The removal of the connection just passed takes the last one out of the new order. */
  lemma PassedAndRemoved(s: State, k: nat)
    requires s.rotationIndex < |s.rotation| && k < |s.rotation| && NoDuplicates(s.rotation)
    ensures var order, p := Cycle(s.rotation, s.rotationIndex), Position(s, k);
            var i := IndexOf(s.rotation, s.rotation[p]);
            var cursor := CursorAfterRemoval(|s.rotation|, i, Advance(|s.rotation|, p));
            cursor <= |RemoveAt(s.rotation, i)| &&
            Cycle(RemoveAt(s.rotation, i), cursor) == order[k + 1..] + order[..k]
  {
    var order, p := Cycle(s.rotation, s.rotationIndex), Position(s, k);
    var size := |s.rotation|;
    IndexUnique(s.rotation, p);
    PassedOrder(s, k);
    RemovalKeepsCycle(s.rotation, Advance(size, p), p, size - 1);
    var passed := order[k + 1..] + order[..k];
    assert RemoveAt(passed + [order[k]], size - 1) == passed;
  }

  lemma TakeTurns(s: State, k: nat)
    requires Shaped(s) && s.rotationIndex < |s.rotation| && k < |s.rotation|
    requires QueueOf(s, s.rotation[Position(s, k)]) != []
    ensures InRange(TakeAt(s, Position(s, k)).rotation, TakeAt(s, Position(s, k)).rotationIndex)
    ensures Changed(Order(s), Order(TakeAt(s, Position(s, k))), Turned(k))
  {
    TakeAtShaped(s, Position(s, k));
    PassedOrder(s, k);
    PassedAndRemoved(s, k);
  }

  lemma DispatchTurns(l: Limits, s: State)
    requires Inv(l, s) && CanDispatch(l, s)
    ensures Changed(Order(s), Order(Dispatch(l, s)), Turned(Pick(l, s, 0).value))
  {
    DispatchIsTake(l, s);
    TakeTurns(s, Pick(l, s, 0).value);
  }

  lemma UnqueueDrops(s: State, task: Task) returns (change: Change)
    requires Shaped(s) && task in QueueOf(s, task.connectionId)
    ensures InRange(Unqueue(s, task).rotation, Unqueue(s, task).rotationIndex)
    ensures change.Same? || change.Dropped?
    ensures Changed(Order(s), Order(Unqueue(s, task)), change)
  {
    var c := task.connectionId;
    assert c in s.queues;
    assert c in s.rotation;
    var i, index := IndexOf(s.rotation, c), s.rotationIndex;
    var place := if index <= i then i - index else |s.rotation| - index + i;
    RemovalKeepsCycle(s.rotation, index, i, place);
    change := if RemoveAt(QueueOf(s, c), PlaceOf(QueueOf(s, c), task)) == [] then Dropped(place) else Same;
  }

  ghost predicate Joins(l: Limits, s: State, step: Step) {
    step.SubmitStep? && Admits(l, s, step.c, step.bytes) && step.c !in s.rotation
  }

  /** Pushing a connection at the end of the rotation, in terms of the rotation and the cursor alone. */
  lemma PushJoins(rotation: seq<Connection>, index: nat, c: Connection)
    requires InRange(rotation, index) && c !in rotation
    ensures InRange(rotation + [c], index)
    ensures Changed(Cycle(rotation, index), Cycle(rotation + [c], index), Joined(|rotation| - index, c))
  {
    JoinInsertsInCycle(rotation, index, c);
    CycleMembers(rotation, index, c);
  }

  lemma SubmitRotation(l: Limits, s: State, c: Connection, bytes: nat)
    requires c in s.rotation <==> c in s.queues
    ensures Submit(l, s, c, bytes).rotation
         == if Admits(l, s, c, bytes) && c !in s.rotation then s.rotation + [c] else s.rotation
    ensures Submit(l, s, c, bytes).rotationIndex == s.rotationIndex
  {
  }

  lemma SubmitJoins(l: Limits, s: State, c: Connection, bytes: nat) returns (change: Change)
    requires InRange(s.rotation, s.rotationIndex) && (c in s.rotation <==> c in s.queues)
    ensures Changed(Order(s), Order(Submit(l, s, c, bytes)), change)
    ensures if Admits(l, s, c, bytes) && c !in s.rotation then change.Joined? else change.Same?
  {
    SubmitRotation(l, s, c, bytes);
    if Admits(l, s, c, bytes) && c !in s.rotation {
      PushJoins(s.rotation, s.rotationIndex, c);
      change := Joined(|s.rotation| - s.rotationIndex, c);
    } else {
      change := Same;
    }
  }

  lemma ExpireDrops(s: State, id: nat) returns (change: Change)
    requires Recorded(s) && Shaped(s) && id < |s.tasks|
    ensures Changed(Order(s), Order(Expire(s, id)), change)
    ensures change.Same? || change.Dropped?
  {
    change := Same;
    if s.tasks[id] in QueueOf(s, s.tasks[id].connectionId) {
      change := UnqueueDrops(s, s.tasks[id]);
    }
  }

  lemma StepChanges(l: Limits, s: State, step: Step) returns (change: Change)
    requires Inv(l, s) && Enabled(l, s, step)
    ensures Changed(Order(s), Order(Apply(l, s, step)), change)
    ensures change.Turned? <==> step.DispatchStep?
    ensures change.Turned? ==> change.k == Pick(l, s, 0).value
    ensures change.Joined? <==> Joins(l, s, step)
  {
    change := Same;
    match step
    case SubmitStep(c, bytes) => change := SubmitJoins(l, s, c, bytes);
    case DispatchStep =>
      DispatchTurns(l, s);
      change := Turned(Pick(l, s, 0).value);
    case ExpireStep(id) => change := ExpireDrops(s, id);
    case CancelStep => change := Cleared;
    case _ =>
  }

  // ----- Orders under a change -----

  lemma DroppedIsGone(order: seq<Connection>, place: nat)
    requires NoDuplicates(order) && place < |order|
    ensures order[place] !in RemoveAt(order, place)
  {
  }

  /** Where the connection at `i` stands after a change that keeps it and does not reach it. */
  lemma PlaceMoves(order: seq<Connection>, order': seq<Connection>, change: Change, i: nat) returns (i': nat)
    requires NoDuplicates(order) && Changed(order, order', change) && i < |order| && order[i] in order'
    requires !change.Cleared? && (change.Turned? ==> change.k < i)
    ensures i' < |order'| && order'[i'] == order[i]
    ensures i' == match change
                  case Same => i
                  case Joined(at, c) => if i < at then i else i + 1
                  case Dropped(place) => if i < place then i else i - 1
                  case Turned(k) => i - k - 1
  {
    match change
    case Same => i' := i;
    case Joined(at, c) => i' := if i < at then i else i + 1;
    case Dropped(place) =>
      DroppedIsGone(order, place);
      i' := if i < place then i else i - 1;
    case Turned(k) => i' := i - k - 1;
  }

  lemma KeepsBefore(order: seq<Connection>, order': seq<Connection>, change: Change, b: Connection, a: Connection)
    requires NoDuplicates(order) && Changed(order, order', change)
    requires Before(order, b, a) && b in order' && a in order'
    requires change.Turned? ==> change.k < IndexOf(order, b)
    ensures Before(order', b, a)
  {
    var i, j :| 0 <= i < j < |order| && order[i] == b && order[j] == a;
    IndexUnique(order, i);
    var i' := PlaceMoves(order, order', change, i);
    var j' := PlaceMoves(order, order', change, j);
    assert change.Dropped? ==> change.place != i && change.place != j by {
      if change.Dropped? {
        DroppedIsGone(order, change.place);
      }
    }
    assert i' < j';
  }

  /** One step brings a waiting connection forward by a dispatch and back by at most one join. */
  lemma RankMoves(order: seq<Connection>, order': seq<Connection>, change: Change, b: Connection)
    requires NoDuplicates(order) && NoDuplicates(order') && Changed(order, order', change)
    requires b in order && b in order'
    requires change.Turned? ==> change.k < IndexOf(order, b)
    ensures IndexOf(order', b)
         <= IndexOf(order, b) + (if change.Joined? then 1 else 0) - (if change.Turned? then 1 else 0)
  {
    var i' := PlaceMoves(order, order', change, IndexOf(order, b));
    IndexUnique(order', i');
  }

  // ----- Histories of orders -----

  /** From one order to the next the scan did not reach `b`. */
  ghost predicate PassesBy(order: seq<Connection>, order': seq<Connection>, b: Connection, turned: bool, joined: bool) {
    && NoDuplicates(order) && NoDuplicates(order') && b in order && b in order'
    && exists change :: IsPassing(order, order', b, change) && change.Turned? == turned && change.Joined? == joined
  }

  ghost predicate IsPassing(order: seq<Connection>, order': seq<Connection>, b: Connection, change: Change)
    requires b in order
  {
    Changed(order, order', change) && (change.Turned? ==> change.k < IndexOf(order, b))
  }

  lemma {:induction false} AheadThroughout(orders: seq<seq<Connection>>, turned: seq<bool>, joined: seq<bool>,
                                           b: Connection, a: Connection)
    requires |orders| == |turned| + 1 == |joined| + 1
    requires forall m :: 0 <= m < |turned| ==> PassesBy(orders[m], orders[m + 1], b, turned[m], joined[m])
    requires forall m :: 0 <= m < |orders| ==> a in orders[m]
    requires Before(orders[0], b, a)
    ensures Before(orders[|turned|], b, a)
  {
    var n := |turned| - 1;
    if n >= 0 {
      AheadThroughout(orders[..n + 1], turned[..n], joined[..n], b, a);
      assert PassesBy(orders[n], orders[n + 1], b, turned[n], joined[n]);
      var change :| IsPassing(orders[n], orders[n + 1], b, change);
      KeepsBefore(orders[n], orders[n + 1], change, b, a);
    }
  }

  function Count(flags: seq<bool>): nat {
    if flags == [] then 0 else Count(flags[..|flags| - 1]) + if flags[|flags| - 1] then 1 else 0
  }

  lemma {:induction false} RankThroughout(orders: seq<seq<Connection>>, turned: seq<bool>, joined: seq<bool>,
                                          b: Connection)
    requires |orders| == |turned| + 1 == |joined| + 1
    requires forall m :: 0 <= m < |turned| ==> PassesBy(orders[m], orders[m + 1], b, turned[m], joined[m])
    requires b in orders[0]
    ensures b in orders[|turned|]
    ensures Count(turned) + IndexOf(orders[|turned|], b) <= IndexOf(orders[0], b) + Count(joined)
  {
    var n := |turned| - 1;
    if n >= 0 {
      RankThroughout(orders[..n + 1], turned[..n], joined[..n], b);
      assert PassesBy(orders[n], orders[n + 1], b, turned[n], joined[n]);
      var change :| IsPassing(orders[n], orders[n + 1], b, change)
                 && change.Turned? == turned[n] && change.Joined? == joined[n];
      RankMoves(orders[n], orders[n + 1], change, b);
    }
  }

  // ----- Runs -----

  /** The connection a dispatch would serve now. */
  function Chosen(l: Limits, s: State): Option<Connection> {
    if InRange(s.rotation, s.rotationIndex) && CanDispatch(l, s) then Some(NextConnection(l, s)) else None
  }

  /** Step `m` of the run starts a task of connection `c`. */
  ghost predicate Serves(l: Limits, states: seq<State>, steps: seq<Step>, m: nat, c: Connection)
    requires m < |steps| && m < |states|
  {
    steps[m].DispatchStep? && Chosen(l, states[m]) == Some(c)
  }

  /** `c` has tasks queued and is below its cap. */
  ghost predicate Eligible(l: Limits, s: State, c: Connection) {
    c in Order(s) && BelowCap(l, s, c)
  }

  /** An eligible connection that is not served is reached only after the one that is. */
  lemma ScanStopsBefore(l: Limits, s: State, b: Connection)
    requires Inv(l, s) && CanDispatch(l, s) && Eligible(l, s, b) && NextConnection(l, s) != b
    ensures Pick(l, s, 0).value < IndexOf(Order(s), b)
  {
    var i, place := IndexOf(Order(s), b), Pick(l, s, 0).value;
    assert BelowCap(l, s, Order(s)[i]);
    assert !(i < place);
  }

  /** A step of a run that does not serve an eligible connection passes it by. */
  lemma StepPasses(l: Limits, states: seq<State>, steps: seq<Step>, m: nat, b: Connection)
    requires IsRun(l, states, steps) && m < |steps| && Eligible(l, states[m], b) && !Serves(l, states, steps, m, b)
    requires b in Order(states[m + 1])
    ensures PassesBy(Order(states[m]), Order(states[m + 1]), b,
                     steps[m].DispatchStep?, Joins(l, states[m], steps[m]))
  {
    assert FollowsAt(l, states, steps, m);
    var change := StepChanges(l, states[m], steps[m]);
    OrderOfShaped(states[m]);
    OrderOfShaped(states[m + 1]);
    if steps[m].DispatchStep? {
      ScanStopsBefore(l, states[m], b);
    }
    assert IsPassing(Order(states[m]), Order(states[m + 1]), b, change);
  }

  function Orders(states: seq<State>): seq<seq<Connection>> {
    seq(|states|, m requires 0 <= m < |states| => Order(states[m]))
  }

  /** Which of the steps are dispatches. */
  function DispatchFlags(steps: seq<Step>): seq<bool> {
    seq(|steps|, m requires 0 <= m < |steps| => steps[m].DispatchStep?)
  }

  /** Which of the steps add a connection to the rotation. */
  ghost function JoinFlags(l: Limits, states: seq<State>, steps: seq<Step>): seq<bool>
    requires |states| >= |steps|
  {
    seq(|steps|, m requires 0 <= m < |steps| => Joins(l, states[m], steps[m]))
  }

  ghost predicate NeverServed(l: Limits, states: seq<State>, steps: seq<Step>, b: Connection)
    requires |states| >= |steps|
  {
    forall m :: 0 <= m < |steps| ==> !Serves(l, states, steps, m, b)
  }

  ghost predicate AlwaysEligible(l: Limits, states: seq<State>, b: Connection) {
    forall m {:trigger Eligible(l, states[m], b)} :: 0 <= m < |states| ==> Eligible(l, states[m], b)
  }

  lemma RunPasses(l: Limits, states: seq<State>, steps: seq<Step>, b: Connection)
    requires IsRun(l, states, steps) && AlwaysEligible(l, states, b) && NeverServed(l, states, steps, b)
    ensures var orders, turned, joined := Orders(states), DispatchFlags(steps), JoinFlags(l, states, steps);
            forall m :: 0 <= m < |turned| ==> PassesBy(orders[m], orders[m + 1], b, turned[m], joined[m])
  {
    forall m | 0 <= m < |steps|
      ensures PassesBy(Order(states[m]), Order(states[m + 1]), b, steps[m].DispatchStep?, Joins(l, states[m], steps[m]))
    {
      assert Eligible(l, states[m], b) && Eligible(l, states[m + 1], b);
      StepPasses(l, states, steps, m, b);
    }
  }

  /** Right after a connection has been served and still has tasks, everyone else is ahead of it. */
  lemma ServedGoesLast(l: Limits, s: State, a: Connection, b: Connection)
    requires Inv(l, s) && Chosen(l, s) == Some(a) && a != b
    requires a in Order(Dispatch(l, s)) && b in Order(Dispatch(l, s))
    ensures Before(Order(Dispatch(l, s)), b, a)
  {
    DispatchTurns(l, s);
    OrderOfShaped(s);
    PassedIsLast(Order(s), Order(Dispatch(l, s)), Pick(l, s, 0).value, b);
  }

  lemma PassedIsLast(order: seq<Connection>, order': seq<Connection>, k: nat, b: Connection)
    requires NoDuplicates(order) && Changed(order, order', Turned(k))
    requires order[k] in order' && b in order' && b != order[k]
    ensures Before(order', b, order[k])
  {
    assert order[k] !in order[k + 1..] + order[..k];
    assert order' == order[k + 1..] + order[..k] + [order[k]];
    var i :| 0 <= i < |order'| && order'[i] == b;
    assert order'[|order'| - 1] == order[k];
  }

  lemma NotServedWhileBehind(l: Limits, s: State, a: Connection, b: Connection)
    requires Inv(l, s) && Chosen(l, s) == Some(a) && a != b && Eligible(l, s, b)
    ensures !Before(Order(s), b, a)
  {
    ScanStopsBefore(l, s, b);
    OrderOfShaped(s);
    IndexUnique(Order(s), Pick(l, s, 0).value);
    BeforeIsLess(Order(s), b, a);
  }

  lemma BeforeIsLess(order: seq<Connection>, b: Connection, a: Connection)
    requires NoDuplicates(order) && b in order && a in order
    ensures Before(order, b, a) ==> IndexOf(order, b) < IndexOf(order, a)
  {
    if i, j :| 0 <= i < j < |order| && order[i] == b && order[j] == a {
      IndexUnique(order, i);
      IndexUnique(order, j);
    }
  }

  /** While `a` stays queued and `b` is not served, `b` stays ahead of `a`. */
  lemma StaysAhead(l: Limits, states: seq<State>, steps: seq<Step>, a: Connection, b: Connection)
    requires IsRun(l, states, steps) && AlwaysEligible(l, states, b) && NeverServed(l, states, steps, b)
    requires forall m :: 0 <= m < |states| ==> a in Order(states[m])
    requires Before(Order(states[0]), b, a)
    ensures Before(Order(states[|steps|]), b, a)
  {
    RunPasses(l, states, steps, b);
    AheadThroughout(Orders(states), DispatchFlags(steps), JoinFlags(l, states, steps), b, a);
  }

  /** The run leads from just after one service of `a` to the moment `a` is chosen again. */
  lemma ServedInBetween(l: Limits, start: State, states: seq<State>, steps: seq<Step>, a: Connection, b: Connection)
    requires Inv(l, start) && Chosen(l, start) == Some(a) && a != b
    requires IsRun(l, states, steps) && states[0] == Dispatch(l, start) && Chosen(l, states[|steps|]) == Some(a)
    requires forall m :: 0 <= m < |states| ==> a in Order(states[m])
    requires AlwaysEligible(l, states, b)
    ensures exists m :: 0 <= m < |steps| && Serves(l, states, steps, m, b)
  {
    assert Eligible(l, states[0], b) && Eligible(l, states[|steps|], b);
    ServedGoesLast(l, start, a, b);
    RunKeepsInv(l, states, steps, |steps|);
    NotServedWhileBehind(l, states[|steps|], a, b);
    if NeverServed(l, states, steps, b) {
      StaysAhead(l, states, steps, a, b);
    }
  }

  lemma SubRun(l: Limits, states: seq<State>, steps: seq<Step>, i: nat, j: nat)
    requires IsRun(l, states, steps) && i <= j <= |steps|
    ensures IsRun(l, states[i..j + 1], steps[i..j])
  {
    RunKeepsInv(l, states, steps, i);
    var sub, moves := states[i..j + 1], steps[i..j];
    forall m | 0 <= m < |moves| ensures FollowsAt(l, sub, moves, m) {
      assert FollowsAt(l, states, steps, i + m);
    }
  }

  /** `a` has tasks queued; `b` has, and is below its cap. */
  ghost predicate BothWait(l: Limits, s: State, a: Connection, b: Connection) {
    a in Order(s) && Eligible(l, s, b)
  }

  lemma WaitInSub(l: Limits, states: seq<State>, i: nat, j: nat, a: Connection, b: Connection, sub: seq<State>)
    requires i <= j < |states| && sub == states[i..j + 1]
    requires forall m {:trigger BothWait(l, states[m], a, b)} :: i <= m <= j ==> BothWait(l, states[m], a, b)
    ensures forall m {:trigger BothWait(l, sub[m], a, b)} :: 0 <= m < |sub| ==> BothWait(l, sub[m], a, b)
  {
    forall m | 0 <= m < |sub| ensures BothWait(l, sub[m], a, b) {
      assert BothWait(l, states[i + m], a, b);
    }
  }

  lemma ServesInSub(l: Limits, states: seq<State>, steps: seq<Step>, i: nat, j: nat, sub: seq<State>, moves: seq<Step>,
                    m: nat, b: Connection)
    requires i <= j <= |steps| && |states| == |steps| + 1 && sub == states[i..j + 1] && moves == steps[i..j]
    requires m < |moves| && Serves(l, sub, moves, m, b)
    ensures Serves(l, states, steps, i + m, b)
  {
    assert sub[m] == states[i + m] && moves[m] == steps[i + m];
  }

  lemma FromService(l: Limits, states: seq<State>, steps: seq<Step>, i: nat, a: Connection, b: Connection,
                    sub: seq<State>, moves: seq<Step>) returns (m: nat)
    requires IsRun(l, states, steps) && i < |steps| && Serves(l, states, steps, i, a) && a != b
    requires IsRun(l, sub, moves) && sub[0] == states[i + 1]
    requires i + 1 + |moves| < |steps| && sub[|moves|] == states[i + 1 + |moves|]
    requires Serves(l, states, steps, i + 1 + |moves|, a)
    requires forall m {:trigger BothWait(l, sub[m], a, b)} :: 0 <= m < |sub| ==> BothWait(l, sub[m], a, b)
    ensures m < |moves| && Serves(l, sub, moves, m, b)
  {
    assert FollowsAt(l, states, steps, i);
    assert AlwaysEligible(l, sub, b) && forall m :: 0 <= m < |sub| ==> a in Order(sub[m]) by {
      forall m | 0 <= m < |sub| ensures a in Order(sub[m]) && Eligible(l, sub[m], b) {
        assert BothWait(l, sub[m], a, b);
      }
    }
    ServedInBetween(l, states[i], sub, moves, a, b);
    m :| 0 <= m < |moves| && Serves(l, sub, moves, m, b);
  }

  /**
    Fairness. Step `i` and step `j` of a run both serve `a`, which stays queued in between. Then every
    other connection that stays queued and below its cap in between is served there, whatever joins,
    empties, expires or finishes.
   */
  lemma RoundRobin(l: Limits, states: seq<State>, steps: seq<Step>, i: nat, j: nat, a: Connection, b: Connection)
    requires IsRun(l, states, steps) && i < j < |steps| && a != b
    requires Serves(l, states, steps, i, a) && Serves(l, states, steps, j, a)
    requires forall m {:trigger BothWait(l, states[m], a, b)} :: i < m <= j ==> BothWait(l, states[m], a, b)
    ensures exists m :: i < m < j && Serves(l, states, steps, m, b)
  {
    var sub, moves := states[i + 1..j + 1], steps[i + 1..j];
    SubRun(l, states, steps, i + 1, j);
    WaitInSub(l, states, i + 1, j, a, b, sub);
    var m := FromService(l, states, steps, i, a, b, sub, moves);
    ServesInSub(l, states, steps, i + 1, j, sub, moves, m, b);
  }

  /**
    How long a waiting connection can be passed over: while it stays queued and below its cap and is
    not served, the dispatches are at most its distance from the cursor plus the joins.
   */
  lemma WaitIsBounded(l: Limits, states: seq<State>, steps: seq<Step>, b: Connection)
    requires IsRun(l, states, steps) && AlwaysEligible(l, states, b) && NeverServed(l, states, steps, b)
    ensures b in Order(states[0]) && |Order(states[0])| == |states[0].rotation|
    ensures Count(DispatchFlags(steps)) <= IndexOf(Order(states[0]), b) + Count(JoinFlags(l, states, steps))
  {
    RunPasses(l, states, steps, b);
    OrderOfShaped(states[0]);
    assert Eligible(l, states[0], b);
    RankThroughout(Orders(states), DispatchFlags(steps), JoinFlags(l, states, steps), b);
  }

  /** When nobody joins, every eligible connection is served within |rotation| dispatches. */
  lemma ServedWithinOneRound(l: Limits, states: seq<State>, steps: seq<Step>, b: Connection)
    requires IsRun(l, states, steps) && AlwaysEligible(l, states, b)
    requires Count(JoinFlags(l, states, steps)) == 0
    requires Count(DispatchFlags(steps)) >= |states[0].rotation|
    ensures exists m :: 0 <= m < |steps| && Serves(l, states, steps, m, b)
  {
    if NeverServed(l, states, steps, b) {
      WaitIsBounded(l, states, steps, b);
    }
  }
}
