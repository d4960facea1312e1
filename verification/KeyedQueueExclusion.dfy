/** When the keyed queue runs one task of a key at a time, in arrival order, and exactly when it may not. */
module KeyedQueueExclusion {
  import opened Wrappers
  import opened KeyedQueue

  /** Nobody can overtake: every open entry is on the chain of the stored tail and of every later entry. */
  ghost predicate Chained(s: State)
    requires |s.links| == |s.phases| && Linked(s.links)
  {
    && (forall i :: 0 <= i < |s.links| && !s.phases[i].Left? ==> ReachableFromTail(s, i))
    && (forall i, j | 0 <= j < i < |s.links| && s.links[j].key == s.links[i].key :: Ordered(s, j, i))
  }

  ghost predicate ReachableFromTail(s: State, i: nat)
    requires Linked(s.links) && i < |s.links|
  {
    var tail := TailOf(s, s.links[i].key);
    tail.Some? && tail.value < |s.links| && OnChain(s.links, tail, i)
  }

  /** `i` waits for `j`, unless one of them is gone. */
  ghost predicate Ordered(s: State, j: nat, i: nat)
    requires |s.links| == |s.phases| && Linked(s.links) && j < i < |s.links|
  {
    s.phases[j].Left? || s.phases[i].Left? || OnChain(s.links, s.links[i].previous, j)
  }

  /** Everything that started had all its predecessors behind it. */
  ghost predicate StartedAlone(s: State)
    requires |s.links| == |s.phases|
  {
    forall k, j | 0 <= k < |s.started| && 0 <= j < s.started[k] < |s.links| &&
                  s.links[j].key == s.links[s.started[k]].key ::
      s.phases[j].Left?
  }

  ghost predicate InArrivalOrder(s: State) {
    forall j, k | 0 <= j < k < |s.started| && s.started[j] < |s.links| && s.started[k] < |s.links| &&
                  s.links[s.started[j]].key == s.links[s.started[k]].key ::
      s.started[j] < s.started[k]
  }

  ghost predicate Serial(c: Config, s: State) {
    Inv(c, s) && Chained(s) && StartedAlone(s) && InArrivalOrder(s)
  }

  /** A timed-out entry takes the key's stored tail with it while an earlier entry is still open. */
  ghost predicate CutsChain(s: State, step: Step)
    requires |s.links| == |s.phases|
  {
    step.TimeOutStep? && step.i < |s.links| && TailOf(s, s.links[step.i].key) == Some(step.i) &&
    exists j :: 0 <= j < step.i && s.links[j].key == s.links[step.i].key && !s.phases[j].Left?
  }

  lemma {:induction false} ResolvedMeansAllLeft(links: seq<Link>, phases: seq<Phase>, p: Option<nat>, e: nat)
    requires Linked(links) && |links| == |phases| && (p.Some? ==> p.value < |links|)
    requires Resolved(links, phases, p) && OnChain(links, p, e)
    ensures e < |links| && phases[e].Left?
    decreases if p.Some? then p.value + 1 else 0
  {
    if p.value != e {
      ResolvedMeansAllLeft(links, phases, links[p.value].previous, e);
    }
  }

  lemma {:induction false} OnChainPush(links: seq<Link>, link: Link, p: Option<nat>, e: nat)
    requires Linked(links) && Linked(links + [link]) && (p.Some? ==> p.value < |links|)
    ensures OnChain(links + [link], p, e) <==> OnChain(links, p, e)
    decreases if p.Some? then p.value + 1 else 0
  {
    if p.Some? {
      OnChainPush(links, link, links[p.value].previous, e);
    }
  }

  lemma EnterSerial(c: Config, s: State, key: string)
    requires Serial(c, s)
    ensures Serial(c, Enter(c, s, key))
  {
    EnterKeeps(c, s, key);
    if Admits(c, s, key) {
      EnterReachable(c, s, key);
      EnterOrdered(c, s, key);
    }
  }

  lemma EnterReachable(c: Config, s: State, key: string)
    requires |s.links| == |s.phases| && Linked(s.links) && TailsCurrent(s) && Chained(s) && Admits(c, s, key)
    requires Linked(Enter(c, s, key).links)
    ensures var s' := Enter(c, s, key);
            forall i :: 0 <= i < |s'.links| && !s'.phases[i].Left? ==> ReachableFromTail(s', i)
  {
    var s', n, link := Enter(c, s, key), |s.links|, Link(key, TailOf(s, key));
    forall i | 0 <= i < |s'.links| && !s'.phases[i].Left? ensures ReachableFromTail(s', i) {
      if i < n {
        assert ReachableFromTail(s, i);
        OnChainPush(s.links, link, TailOf(s, s.links[i].key), i);
      }
    }
  }

  lemma EnterOrdered(c: Config, s: State, key: string)
    requires |s.links| == |s.phases| && Linked(s.links) && Chained(s) && Admits(c, s, key)
    requires Linked(Enter(c, s, key).links)
    ensures var s' := Enter(c, s, key);
            forall i, j | 0 <= j < i < |s'.links| && s'.links[j].key == s'.links[i].key :: Ordered(s', j, i)
  {
    var s', n, link := Enter(c, s, key), |s.links|, Link(key, TailOf(s, key));
    forall i, j | 0 <= j < i < |s'.links| && s'.links[j].key == s'.links[i].key ensures Ordered(s', j, i) {
      if i < n {
        assert Ordered(s, j, i);
        OnChainPush(s.links, link, s.links[i].previous, j);
      } else if !s.phases[j].Left? {
        assert ReachableFromTail(s, j);
        OnChainPush(s.links, link, TailOf(s, key), j);
      }
    }
  }

  lemma StartsBehindAll(c: Config, s: State, i: nat)
    requires Serial(c, s) && Enabled(c, s, StartStep(i))
    ensures NothingBefore(s, i)
  {
    forall j | 0 <= j < i && s.links[j].key == s.links[i].key ensures s.phases[j].Left? {
      assert Ordered(s, j, i);
      if OnChain(s.links, s.links[i].previous, j) {
        ResolvedMeansAllLeft(s.links, s.phases, s.links[i].previous, j);
      }
    }
  }

  lemma StartSerial(c: Config, s: State, i: nat)
    requires Serial(c, s) && Enabled(c, s, StartStep(i))
    ensures Serial(c, Start(s, i))
  {
    StartKeeps(c, s, i);
    var s' := Start(s, i);
    StartsBehindAll(c, s, i);
    assert Chained(s') by {
      forall e | 0 <= e < |s'.links| && !s'.phases[e].Left? ensures ReachableFromTail(s', e) {
        assert ReachableFromTail(s, e);
      }
      forall e, j | 0 <= j < e < |s'.links| && s'.links[j].key == s'.links[e].key ensures Ordered(s', j, e) {
        assert Ordered(s, j, e);
      }
    }
    StartedOrder(s, i);
  }

  lemma StartedOrder(s: State, i: nat)
    requires |s.links| == |s.phases| && StartsRecorded(s) && StartedAlone(s) && InArrivalOrder(s)
    requires i < |s.links| && s.phases[i].Waiting?
    requires forall j :: 0 <= j < i && s.links[j].key == s.links[i].key ==> s.phases[j].Left?
    ensures StartedAlone(Start(s, i)) && InArrivalOrder(Start(s, i))
  {
  }

  lemma LeaveSerial(c: Config, s: State, i: nat)
    requires Serial(c, s) && i < |s.links| && !s.phases[i].Left?
    requires TailOf(s, s.links[i].key) == Some(i) ==> NothingBefore(s, i)
    ensures Serial(c, Leave(s, i))
  {
    LeaveKeeps(c, s, i);
    LeaveChained(s, i);
  }

  ghost predicate NothingBefore(s: State, i: nat)
    requires |s.links| == |s.phases| && i < |s.links|
  {
    forall j :: 0 <= j < i && s.links[j].key == s.links[i].key ==> s.phases[j].Left?
  }

  lemma LeaveChained(s: State, i: nat)
    requires |s.links| == |s.phases| && Linked(s.links) && TailsCurrent(s) && Chained(s)
    requires i < |s.links| && !s.phases[i].Left?
    requires TailOf(s, s.links[i].key) == Some(i) ==> NothingBefore(s, i)
    ensures Chained(Leave(s, i))
  {
    var s' := Leave(s, i);
    forall e | 0 <= e < |s'.links| && !s'.phases[e].Left? ensures ReachableFromTail(s', e) {
      assert ReachableFromTail(s, e);
    }
    forall e, j | 0 <= j < e < |s'.links| && s'.links[j].key == s'.links[e].key ensures Ordered(s', j, e) {
      assert Ordered(s, j, e);
    }
  }

  /** A running task that leaves cuts nothing: everything before it is gone already. */
  lemma FinishSerial(c: Config, s: State, i: nat)
    requires Serial(c, s) && Enabled(c, s, FinishStep(i))
    ensures Serial(c, Leave(s, i))
  {
    var k :| 0 <= k < |s.started| && s.started[k] == i;
    forall j | 0 <= j < i && s.links[j].key == s.links[i].key ensures s.phases[j].Left? {
      assert j < s.started[k];
    }
    LeaveSerial(c, s, i);
  }

  lemma StepSerial(c: Config, s: State, step: Step)
    requires Serial(c, s) && Enabled(c, s, step) && !CutsChain(s, step)
    ensures Serial(c, Apply(c, s, step))
  {
    match step
    case EnterStep(key) => EnterSerial(c, s, key);
    case StartStep(i) => StartSerial(c, s, i);
    case FinishStep(i) => FinishSerial(c, s, i);
    case TimeOutStep(i) => LeaveSerial(c, s, i);
  }

  // ----- Runs -----

  /** Consecutive steps from any state. */
  ghost predicate IsPath(c: Config, states: seq<State>, steps: seq<Step>) {
    |states| == |steps| + 1 && forall i :: 0 <= i < |steps| ==> FollowsAt(c, states, steps, i)
  }

  ghost predicate IsRun(c: Config, states: seq<State>, steps: seq<Step>) {
    IsPath(c, states, steps) && states[0] == INITIAL
  }

  ghost predicate FollowsAt(c: Config, states: seq<State>, steps: seq<Step>, i: nat)
    requires i < |steps| && |states| == |steps| + 1
  {
    Inv(c, states[i]) && Enabled(c, states[i], steps[i]) && states[i + 1] == Apply(c, states[i], steps[i])
  }

  ghost predicate NeverCuts(states: seq<State>, steps: seq<Step>)
    requires |states| == |steps| + 1
  {
    forall i :: 0 <= i < |steps| ==> |states[i].links| == |states[i].phases| && !CutsChain(states[i], steps[i])
  }

  lemma {:induction false} RunIsSerial(c: Config, states: seq<State>, steps: seq<Step>, i: nat)
    requires IsRun(c, states, steps) && NeverCuts(states, steps) && i < |states|
    ensures Serial(c, states[i])
  {
    if i > 0 {
      RunIsSerial(c, states, steps, i - 1);
      assert FollowsAt(c, states, steps, i - 1);
      assert !CutsChain(states[i - 1], steps[i - 1]);
      StepSerial(c, states[i - 1], steps[i - 1]);
    }
  }

  /** Two tasks of one key running at once. */
  ghost predicate Overlap(s: State, key: string)
    requires |s.links| == |s.phases|
  {
    exists i, j :: 0 <= i < j < |s.links| && s.links[i].key == key && s.links[j].key == key &&
                   s.phases[i].Running? && s.phases[j].Running?
  }

  lemma RunningAlone(c: Config, s: State, a: nat, b: nat)
    requires Serial(c, s) && a < |s.links| && b < |s.links| && a != b
    requires s.phases[a].Running? && s.phases[b].Running?
    ensures s.links[a].key != s.links[b].key
  {
    assert a in s.started && b in s.started;
  }

  /** In every run in which no timeout cuts a chain, tasks of one key never overlap and start in
      the order in which they arrived. */
  lemma NoOverlap(c: Config, states: seq<State>, steps: seq<Step>, i: nat, key: string)
    requires IsRun(c, states, steps) && NeverCuts(states, steps) && i < |states|
    ensures Inv(c, states[i]) && !Overlap(states[i], key) && InArrivalOrder(states[i])
  {
    RunIsSerial(c, states, steps, i);
    var s := states[i];
    forall a, b | 0 <= a < b < |s.links| && s.phases[a].Running? && s.phases[b].Running?
      ensures s.links[a].key != s.links[b].key
    {
      RunningAlone(c, s, a, b);
    }
  }

  /** With waiting unlimited (`maxWaitMs` <= 0) the hypothesis always holds. */
  lemma NoTimeoutsNoCuts(c: Config, states: seq<State>, steps: seq<Step>)
    requires IsRun(c, states, steps) && c.maxWaitMs <= 0
    ensures NeverCuts(states, steps)
  {
    forall i | 0 <= i < |steps| ensures |states[i].links| == |states[i].phases| && !CutsChain(states[i], steps[i]) {
      assert FollowsAt(c, states, steps, i);
    }
  }

  // ----- The hypothesis is needed, and nobody is stuck -----

  lemma {:induction false} EarliestIsResolved(
    links: seq<Link>, phases: seq<Phase>, key: string, bound: nat, p: Option<nat>)
    requires Linked(links) && |links| == |phases|
    requires p.Some? ==> p.value < bound && p.value < |links| && links[p.value].key == key
    requires forall j :: 0 <= j < bound && j < |links| && links[j].key == key ==> phases[j].Left?
    ensures Resolved(links, phases, p)
    decreases if p.Some? then p.value + 1 else 0
  {
    if p.Some? {
      EarliestIsResolved(links, phases, key, bound, links[p.value].previous);
    }
  }

  function EarliestOpen(s: State, key: string, from: nat): (i: nat)
    requires |s.links| == |s.phases|
    requires exists j :: from <= j < |s.links| && s.links[j].key == key && !s.phases[j].Left?
    ensures from <= i < |s.links| && s.links[i].key == key && !s.phases[i].Left?
    ensures forall j :: from <= j < i && s.links[j].key == key ==> s.phases[j].Left?
    decreases |s.links| - from
  {
    if s.links[from].key == key && !s.phases[from].Left? then from else EarliestOpen(s, key, from + 1)
  }

  /** While some entry of a key is open, one of them is running or can start: no deadlock, cut or not. */
  lemma SomeoneCanGo(c: Config, s: State, key: string) returns (i: nat)
    requires Inv(c, s)
    requires exists j :: 0 <= j < |s.links| && s.links[j].key == key && !s.phases[j].Left?
    ensures i < |s.links| && s.links[i].key == key
    ensures s.phases[i].Running? || Enabled(c, s, StartStep(i))
    ensures forall j :: 0 <= j < i && s.links[j].key == key ==> s.phases[j].Left?
  {
    i := EarliestOpen(s, key, 0);
    EarliestIsResolved(s.links, s.phases, key, i, s.links[i].previous);
  }

  /** Without a cut a waiting entry may start exactly when every earlier entry of its key has left. */
  lemma TurnComesIff(c: Config, states: seq<State>, steps: seq<Step>, n: nat, i: nat)
    requires IsRun(c, states, steps) && NeverCuts(states, steps) && n < |states| && i < |states[n].links|
    ensures Inv(c, states[n])
    ensures Enabled(c, states[n], StartStep(i)) <==>
            && states[n].phases[i].Waiting?
            && forall j :: 0 <= j < i && states[n].links[j].key == states[n].links[i].key ==> states[n].phases[j].Left?
  {
    RunIsSerial(c, states, steps, n);
    var s := states[n];
    if Enabled(c, s, StartStep(i)) {
      StartsBehindAll(c, s, i);
    } else if s.phases[i].Waiting? && NothingBefore(s, i) {
      EarliestIsResolved(s.links, s.phases, s.links[i].key, i, s.links[i].previous);
    }
  }

  /** A step on one key leaves what the maps hold for every other key, and every other entry's phase. */
  lemma OtherKeysUntouched(c: Config, s: State, step: Step, key: string)
    requires Inv(c, s) && Enabled(c, s, step)
    requires if step.EnterStep? then step.key != key else s.links[step.i].key != key
    ensures var s' := Apply(c, s, step);
            && TailOf(s', key) == TailOf(s, key) && DepthOf(s', key) == DepthOf(s, key)
            && |s'.phases| >= |s.phases|
            && forall j :: 0 <= j < |s.links| && s.links[j].key == key ==> s'.phases[j] == s.phases[j]
  {
  }

  /** Every cut opens the door to an overlap: a new arrival finds no tail and starts at once, beside
      the earliest open entry of its key. */
  lemma CutLeadsToOverlap(c: Config, s: State, step: Step) returns (states: seq<State>, steps: seq<Step>)
    requires Inv(c, s) && Enabled(c, s, step) && CutsChain(s, step)
    ensures IsPath(c, states, steps) && states[0] == s && |steps| > 0 && steps[0] == step
    ensures Inv(c, states[|steps|]) && Overlap(states[|steps|], s.links[step.i].key)
  {
    var key, n := s.links[step.i].key, |s.links|;
    var j :| 0 <= j < step.i && s.links[j].key == key && !s.phases[j].Left?;
    var cut := Apply(c, s, step);
    var states1, steps1 := ExtendPath(c, [s], [], step, cut);
    RoomAfterLeaving(c, s, step.i);
    states, steps := ArriveAndStart(c, states1, steps1, key, j);
    states, steps := StartEarliest(c, states, steps, key, j, n);
  }

  /** A key without a stored tail lets the next arrival start at once. */
  lemma ArriveAndStart(c: Config, states: seq<State>, steps: seq<Step>, key: string, j: nat)
    returns (states': seq<State>, steps': seq<Step>)
    requires IsPath(c, states, steps) && Inv(c, states[|steps|]) && |steps| > 0
    requires var s := states[|steps|];
             Admits(c, s, key) && key !in s.tails && j < |s.links| && s.links[j].key == key && !s.phases[j].Left?
    ensures IsPath(c, states', steps') && states'[0] == states[0] && |steps'| > 0 && steps'[0] == steps[0]
    ensures Inv(c, states'[|steps'|])
    ensures var s', n := states'[|steps'|], |states[|steps|].links|;
            && n < |s'.links| && s'.links[j].key == key && !s'.phases[j].Left?
            && s'.links[n].key == key && s'.phases[n].Running?
  {
    var s, n := states[|steps|], |states[|steps|].links|;
    var arrived := Apply(c, s, EnterStep(key));
    states', steps' := ExtendPath(c, states, steps, EnterStep(key), arrived);
    assert arrived.links[n] == Link(key, None);
    states', steps' := ExtendPath(c, states', steps', StartStep(n), Apply(c, arrived, StartStep(n)));
  }

  lemma StartEarliest(c: Config, states: seq<State>, steps: seq<Step>, key: string, j: nat, n: nat)
    returns (states': seq<State>, steps': seq<Step>)
    requires IsPath(c, states, steps) && Inv(c, states[|steps|]) && |steps| > 0
    requires var s := states[|steps|];
             && j < n < |s.links| && s.links[j].key == key && !s.phases[j].Left?
             && s.links[n].key == key && s.phases[n].Running?
    ensures IsPath(c, states', steps') && states'[0] == states[0] && |steps'| > 0 && steps'[0] == steps[0]
    ensures Inv(c, states'[|steps'|]) && Overlap(states'[|steps'|], key)
  {
    var s := states[|steps|];
    var e := SomeoneCanGo(c, s, key);
    assert e <= j;
    states', steps' := states, steps;
    if !s.phases[e].Running? {
      states', steps' := ExtendPath(c, states, steps, StartStep(e), Apply(c, s, StartStep(e)));
    }
  }

  lemma ExtendPath(c: Config, states: seq<State>, steps: seq<Step>, step: Step, s': State)
    returns (states': seq<State>, steps': seq<Step>)
    requires IsPath(c, states, steps) && Inv(c, states[|steps|]) && Enabled(c, states[|steps|], step)
    requires s' == Apply(c, states[|steps|], step)
    ensures IsPath(c, states', steps') && states' == states + [s'] && steps' == steps + [step]
    ensures states'[|steps'|] == s' && Inv(c, s')
  {
    ApplyKeeps(c, states[|steps|], step);
    states', steps' := states + [s'], steps + [step];
    forall i | 0 <= i < |steps'| ensures FollowsAt(c, states', steps', i) {
      if i < |steps| {
        assert FollowsAt(c, states, steps, i);
      }
    }
  }

  lemma RoomAfterLeaving(c: Config, s: State, i: nat)
    requires Inv(c, s) && i < |s.links| && !s.phases[i].Left?
    ensures Admits(c, Leave(s, i), s.links[i].key)
  {
    var key := s.links[i].key;
    LeaveKeeps(c, s, i);
    OpenSet(s.links, s.phases, i, Left, key);
    assert DepthOf(s, key) == Open(s.links, s.phases, key) <= c.maxDepthPerKey;
    assert DepthOf(Leave(s, i), key) == Open(s.links, s.phases[i := Left], key);
  }

  /** The whole story from the empty queue: two entries, the second times out, a third overlaps the first. */
  lemma OverlapArises(c: Config, key: string) returns (states: seq<State>, steps: seq<Step>)
    requires c.maxWaitMs > 0 && c.maxDepthPerKey >= 2
    ensures IsRun(c, states, steps) && Inv(c, states[|steps|]) && Overlap(states[|steps|], key)
  {
    states, steps := FirstRuns(c, key);
    states, steps := SecondTimesOut(c, states, steps, key);
    states, steps := ArriveAndStart(c, states, steps, key, 0);
    states, steps := StartEarliest(c, states, steps, key, 0, 2);
  }

  lemma FirstRuns(c: Config, key: string) returns (states: seq<State>, steps: seq<Step>)
    requires c.maxDepthPerKey >= 2
    ensures IsPath(c, states, steps) && states[0] == INITIAL && |steps| > 0 && Inv(c, states[|steps|])
    ensures states[|steps|] == State(map[key := 0], map[key := 1], [Link(key, None)], [Running], [0])
  {
    var s1 := State(map[key := 0], map[key := 1], [Link(key, None)], [Waiting], []);
    states, steps := FirstEnters(c, key, s1);
    states, steps := ExtendPath(c, states, steps, StartStep(0), Start(s1, 0));
  }

  lemma FirstEnters(c: Config, key: string, s1: State) returns (states: seq<State>, steps: seq<Step>)
    requires c.maxDepthPerKey >= 2
    requires s1 == State(map[key := 0], map[key := 1], [Link(key, None)], [Waiting], [])
    ensures IsPath(c, states, steps) && states[0] == INITIAL && |steps| == 1 && states[1] == s1 && Inv(c, s1)
  {
    assert Enter(c, INITIAL, key) == s1;
    states, steps := ExtendPath(c, [INITIAL], [], EnterStep(key), s1);
  }

  lemma SecondTimesOut(c: Config, states: seq<State>, steps: seq<Step>, key: string)
    returns (states': seq<State>, steps': seq<Step>)
    requires c.maxWaitMs > 0 && c.maxDepthPerKey >= 2
    requires IsPath(c, states, steps) && states[0] == INITIAL && |steps| > 0 && Inv(c, states[|steps|])
    requires states[|steps|] == State(map[key := 0], map[key := 1], [Link(key, None)], [Running], [0])
    ensures IsPath(c, states', steps') && states'[0] == INITIAL && |steps'| > 0 && Inv(c, states'[|steps'|])
    ensures var s := states'[|steps'|];
            Admits(c, s, key) && key !in s.tails && |s.links| == 2 && s.links[0].key == key && s.phases[0].Running?
  {
    var s2 := states[|steps|];
    var s3 := Enter(c, s2, key);
    states', steps' := ExtendPath(c, states, steps, EnterStep(key), s3);
    states', steps' := ExtendPath(c, states', steps', TimeOutStep(1), Leave(s3, 1));
    RoomAfterLeaving(c, s3, 1);
  }

  // ----- The configurations that never overlap -----

  lemma {:induction false} TwoOpen(links: seq<Link>, phases: seq<Phase>, i: nat, j: nat)
    requires |links| == |phases| && i < j < |links| && links[i].key == links[j].key
    requires !phases[i].Left? && !phases[j].Left?
    ensures Open(links, phases, links[j].key) >= 2
  {
    var last := |links| - 1;
    if j < last {
      TwoOpen(links[..last], phases[..last], i, j);
    } else {
      OpenPositive(links[..last], phases[..last], i);
    }
  }

  /** A queue of depth one holds one entry of a key, so nothing can overlap. */
  lemma ShallowNoOverlap(c: Config, s: State, key: string)
    requires Inv(c, s) && c.maxDepthPerKey <= 1
    ensures !Overlap(s, key)
  {
    assert DepthOf(s, key) == Open(s.links, s.phases, key) <= c.maxDepthPerKey;
    if Overlap(s, key) {
      var i, j :| 0 <= i < j < |s.links| && s.links[i].key == key && s.links[j].key == key &&
                  s.phases[i].Running? && s.phases[j].Running?;
      TwoOpen(s.links, s.phases, i, j);
    }
  }

  lemma {:induction false} RunKeepsInv(c: Config, states: seq<State>, steps: seq<Step>, n: nat)
    requires IsRun(c, states, steps) && n < |states|
    ensures Inv(c, states[n])
  {
    if n > 0 {
      RunKeepsInv(c, states, steps, n - 1);
      assert FollowsAt(c, states, steps, n - 1);
      ApplyKeeps(c, states[n - 1], steps[n - 1]);
    }
  }

  ghost predicate OverlapsAt(c: Config, states: seq<State>, steps: seq<Step>, n: nat, key: string) {
    IsRun(c, states, steps) && n < |states| && |states[n].links| == |states[n].phases| && Overlap(states[n], key)
  }

  ghost predicate MayOverlap(c: Config) {
    exists states, steps, n, key :: OverlapsAt(c, states, steps, n, key)
  }

  lemma SafeConfig(c: Config, states: seq<State>, steps: seq<Step>, n: nat, key: string)
    requires IsRun(c, states, steps) && n < |states| && (c.maxWaitMs <= 0 || c.maxDepthPerKey <= 1)
    ensures !OverlapsAt(c, states, steps, n, key)
  {
    if c.maxWaitMs <= 0 {
      NoTimeoutsNoCuts(c, states, steps);
      NoOverlap(c, states, steps, n, key);
    } else {
      RunKeepsInv(c, states, steps, n);
      ShallowNoOverlap(c, states[n], key);
    }
  }

  /** Which configurations serialise every run: those without a wait limit and those of depth one. */
  lemma OverlapFreeIff(c: Config)
    ensures !MayOverlap(c) <==> c.maxWaitMs <= 0 || c.maxDepthPerKey <= 1
  {
    if c.maxWaitMs <= 0 || c.maxDepthPerKey <= 1 {
      forall states, steps, n, key | OverlapsAt(c, states, steps, n, key) ensures false {
        SafeConfig(c, states, steps, n, key);
      }
    } else {
      var states, steps := OverlapArises(c, "");
      assert OverlapsAt(c, states, steps, |steps|, "");
    }
  }
}
