/**
  A run of the gateway that leaves a claim behind: while one event of a conversation is being handled, a
  second one fails in the keyed queue, and its operation closes with the record still `processing`.
 */
module GatewayWitness {
  import opened Wrappers
  import FQ = FairQueue
  import FI = FairQueueInvariant
  import FO = FairQueueOperations
  import FM = FairQueueMoves
  import KQ = KeyedQueue
  import Ledger
  import opened Gateway
  import opened GatewayInvariant
  import opened GatewayRuns
  import opened GatewayClaims
  import opened GatewayCapacity

  /** A run from a process start with an empty table, up to the state `g`. */
  ghost predicate Reaches(c: Config, states: seq<State>, steps: seq<Step>, g: State) {
    IsRun(c, states, steps) && Starting(states[0]) && states[0].table == map[] && states[|steps|] == g
  }

  lemma Known(c: Config, states: seq<State>, steps: seq<Step>, g: State)
    requires Reaches(c, states, steps, g)
    ensures Inv(c, g)
  {
    RunKeepsInv(c, states, steps, |steps|);
  }

  lemma Extend(c: Config, states: seq<State>, steps: seq<Step>, g: State, step: Step, g': State)
    returns (states': seq<State>, steps': seq<Step>)
    requires Reaches(c, states, steps, g) && Inv(c, g) && Enabled(c, g, step) && g' == Apply(c, g, step)
    ensures Reaches(c, states', steps', g') && steps' == steps + [step] && states' == states + [g']
  {
    states', steps' := states + [g'], steps + [step];
    forall n | 0 <= n < |steps'| ensures FollowsAt(c, states', steps', n) {
      if n < |steps| {
        ShiftFollows(c, states, steps, g', step, n);
      }
    }
  }

  lemma ShiftFollows(c: Config, states: seq<State>, steps: seq<Step>, g': State, step: Step, n: nat)
    requires |states| == |steps| + 1 && n < |steps| && FollowsAt(c, states, steps, n)
    ensures FollowsAt(c, states + [g'], steps + [step], n)
  {
  }

  // ----- The steps of one operation, seen from outside -----

  /** A step that leaves the fair queue alone. */
  lemma Plain(c: Config, g: State, step: Step) returns (g': State)
    requires Inv(c, g) && Enabled(c, g, step) && !step.Enter? && !step.Finish? && !step.Queue?
    ensures g' == Apply(c, g, step) == Next(c, g, step, g.fair)
  {
    g' := Apply(c, g, step);
  }

  lemma Entering(c: Config, g: State, i: nat) returns (g': State)
    requires Inv(c, g) && i < |g.ops| && g.ops[i].outer.Entering? && g.fair.accepting
    requires !FQ.MustWait(c.limits, g.fair, g.ops[i].event.connectionId)
    ensures g' == Apply(c, g, Enter(i))
    ensures FO.FastPath(g.fair, g'.fair, g.ops[i].event.connectionId, g.ops[i].event.bytes)
    ensures g'.ops == g.ops[i := g.ops[i].(outer := Awaiting, task := Some(|g.fair.tasks|))]
    ensures g'.serial == g.serial && g'.table == g.table && g'.inFlight == g.inFlight
  {
    g' := Apply(c, g, Enter(i));
    FastRun(c.limits, g.fair, g.ops[i].event.connectionId, g.ops[i].event.bytes);
  }

  lemma FastRun(l: FQ.Limits, s: FQ.State, connection: string, bytes: nat)
    requires FQ.Inv(l, s) && s.accepting && !FQ.MustWait(l, s, connection)
    ensures FO.FastPath(s, FO.Execute(l, s, FO.Run(connection, bytes)), connection, bytes)
  {
    FI.SubmitKeeps(l, s, connection, bytes);
    FO.FastPathStarts(l, s, connection, bytes);
  }

  lemma Ending(c: Config, g: State, i: nat) returns (g': State)
    requires Inv(c, g) && i < |g.ops| && g.ops[i].inner.Finishing?
    ensures Enabled(c, g, Finish(i)) && g' == Apply(c, g, Finish(i))
    ensures g'.ops == g.ops[i := g.ops[i].(inner := Done)] && g'.table == g.table
    ensures StatusOf(g'.fair, g'.ops[i]).Finished?
  {
    g' := Apply(c, g, Finish(i));
    Finishes(c.limits, g.fair, TaskOf(g, i));
  }

  lemma Finishes(l: FQ.Limits, s: FQ.State, id: nat)
    requires FQ.Inv(l, s) && id < |s.tasks| == |s.status| && s.status[id].Active?
    ensures id < |FO.Execute(l, s, FO.Complete(id)).status| && FO.Execute(l, s, FO.Complete(id)).status[id].Finished?
  {
    FM.ExecuteMoves(l, s, FO.Complete(id));
  }

  lemma Missing(c: Config, g: State, i: nat, e: nat) returns (g': State)
    requires Inv(c, g) && i < |g.ops| && g.ops[i].inner.InLine? && g.ops[i].entry == Some(e)
    requires e < |g.serial.links| == |g.serial.phases| && g.serial.phases[e].Waiting? && c.serial.maxWaitMs > 0
    ensures Enabled(c, g, MissTurn(i)) && g' == Apply(c, g, MissTurn(i))
    ensures g'.table == g.table && g'.fair == g.fair && g'.ops == g.ops[i := g.ops[i].(inner := Finishing)]
  {
    assert EntryOf(g, i) == e && KQ.Enabled(c.serial, g.serial, KQ.TimeOutStep(e));
    g' := Plain(c, g, MissTurn(i));
  }

  lemma FindsFull(c: Config, g: State, i: nat) returns (g': State)
    requires Inv(c, g) && i < |g.ops| && g.ops[i].inner.Idle? && StatusOf(g.fair, g.ops[i]).Active?
    requires !KQ.Admits(c.serial, g.serial, g.ops[i].event.conversation)
    ensures Enabled(c, g, Begin(i)) && g' == Apply(c, g, Begin(i)) && LosesClaim(c, g, Begin(i), i)
    ensures g'.table == g.table && g'.fair == g.fair && g'.ops == g.ops[i := g.ops[i].(inner := Finishing)]
  {
    g' := Plain(c, g, Begin(i));
  }

  lemma LinesUp(c: Config, g: State, i: nat) returns (g': State)
    requires Inv(c, g) && i < |g.ops| && g.ops[i].inner.Idle? && StatusOf(g.fair, g.ops[i]).Active?
    requires KQ.Admits(c.serial, g.serial, g.ops[i].event.conversation)
    ensures Enabled(c, g, Begin(i)) && g' == Apply(c, g, Begin(i))
    ensures g'.fair == g.fair && g'.table == g.table && g'.inFlight == g.inFlight
    ensures g'.serial == KQ.Enter(c.serial, g.serial, g.ops[i].event.conversation)
    ensures g'.ops == g.ops[i := g.ops[i].(inner := InLine, entry := Some(|g.serial.links|))]
  {
    g' := Plain(c, g, Begin(i));
  }

  /** The operation of a new event once it has claimed it. */
  function Claimed(key: string, event: Event): Operation {
    Operation(key, event, Outer.Entering, Idle, None, None, true, false)
  }

  function Arrived(key: string, event: Event): Operation {
    Operation(key, event, Claiming, Idle, None, None, false, false)
  }

  lemma Arrives(c: Config, states: seq<State>, steps: seq<Step>, g: State, key: string, event: Event)
    returns (states': seq<State>, steps': seq<Step>, g': State)
    requires Reaches(c, states, steps, g) && key !in g.inFlight
    ensures Reaches(c, states', steps', g') && g'.fair == g.fair && g'.serial == g.serial && g'.table == g.table
    ensures g'.ops == g.ops + [Arrived(key, event)] && g'.inFlight == g.inFlight[key := |g.ops|]
  {
    Known(c, states, steps, g);
    g' := Plain(c, g, Handle(key, event, true));
    states', steps' := Extend(c, states, steps, g, Handle(key, event, true), g');
  }

  lemma Claims(c: Config, states: seq<State>, steps: seq<Step>, g: State, i: nat)
    returns (states': seq<State>, steps': seq<Step>, g': State)
    requires Reaches(c, states, steps, g) && i < |g.ops| && g.ops[i].outer.Claiming? && g.ops[i].event.key !in g.table
    ensures Reaches(c, states', steps', g') && g'.fair == g.fair && g'.serial == g.serial && g'.inFlight == g.inFlight
    ensures g'.ops == g.ops[i := g.ops[i].(outer := Outer.Entering, claimed := true)]
    ensures HeldBy(g.table, g'.table, g.ops[i].event.key)
  {
    Known(c, states, steps, g);
    g' := Plain(c, g, Claim(i, 0));
    states', steps' := Extend(c, states, steps, g, Claim(i, 0), g');
  }

  /** The key has a new record, `processing`; no other key has become present. */
  predicate HeldBy(t: Ledger.Table, t': Ledger.Table, key: Ledger.Key) {
    key in t' && t'[key].progress.Processing? && t'.Keys <= t.Keys + {key}
  }

  lemma ClaimsNew(c: Config, states: seq<State>, steps: seq<Step>, g: State, key: string, event: Event)
    returns (states': seq<State>, steps': seq<Step>, g': State)
    requires Reaches(c, states, steps, g) && key !in g.inFlight && event.key !in g.table
    ensures Reaches(c, states', steps', g') && g'.fair == g.fair && g'.serial == g.serial
    ensures g'.ops == g.ops + [Claimed(key, event)] && g'.inFlight == g.inFlight[key := |g.ops|]
    ensures HeldBy(g.table, g'.table, event.key)
  {
    var g1;
    states', steps', g1 := Arrives(c, states, steps, g, key, event);
    states', steps', g' := Claims(c, states', steps', g1, |g.ops|);
  }

  /** A free slot takes the event past the fair queue at once. */
  lemma GetsSlot(c: Config, states: seq<State>, steps: seq<Step>, g: State, i: nat)
    returns (states': seq<State>, steps': seq<Step>, g': State)
    requires Reaches(c, states, steps, g) && i < |g.ops| && g.ops[i].outer.Entering? && g.fair.accepting
    requires !FQ.MustWait(c.limits, g.fair, g.ops[i].event.connectionId)
    ensures Reaches(c, states', steps', g')
    ensures FO.FastPath(g.fair, g'.fair, g.ops[i].event.connectionId, g.ops[i].event.bytes)
    ensures g'.ops == g.ops[i := g.ops[i].(outer := Awaiting, task := Some(|g.fair.tasks|))]
    ensures g'.serial == g.serial && g'.table == g.table && g'.inFlight == g.inFlight
  {
    Known(c, states, steps, g);
    g' := Entering(c, g, i);
    states', steps' := Extend(c, states, steps, g, Enter(i), g');
  }

  /** Arrival, claim and a slot. */
  lemma Admitted(c: Config, states: seq<State>, steps: seq<Step>, g: State, key: string, event: Event)
    returns (states': seq<State>, steps': seq<Step>, g': State)
    requires Reaches(c, states, steps, g) && key !in g.inFlight && event.key !in g.table && g.fair.accepting
    requires !FQ.MustWait(c.limits, g.fair, event.connectionId)
    ensures Reaches(c, states', steps', g') && FO.FastPath(g.fair, g'.fair, event.connectionId, event.bytes)
    ensures g'.ops == g.ops + [Claimed(key, event).(outer := Awaiting, task := Some(|g.fair.tasks|))]
    ensures g'.serial == g.serial && g'.inFlight == g.inFlight[key := |g.ops|]
    ensures HeldBy(g.table, g'.table, event.key)
  {
    var g1;
    states', steps', g1 := ClaimsNew(c, states, steps, g, key, event);
    states', steps', g' := GetsSlot(c, states', steps', g1, |g.ops|);
    assert g1.ops[|g.ops|] == Claimed(key, event);
  }

  /** The keyed queue with one entry of the key, running. */
  function Occupied(key: string): KQ.State {
    KQ.State(map[key := 0], map[key := 1], [KQ.Link(key, None)], [KQ.Running], [0])
  }

  lemma FirstEnters(c: KQ.Config, key: string)
    requires c.maxDepthPerKey >= 1
    ensures KQ.Admits(c, KQ.INITIAL, key)
    ensures KQ.Enter(c, KQ.INITIAL, key)
         == KQ.State(map[key := 0], map[key := 1], [KQ.Link(key, None)], [KQ.Waiting], [])
    ensures KQ.Start(KQ.Enter(c, KQ.INITIAL, key), 0) == Occupied(key)
  {
  }

  lemma FirstBegins(c: Config, states: seq<State>, steps: seq<Step>, g: State)
    returns (states': seq<State>, steps': seq<Step>, g': State)
    requires Reaches(c, states, steps, g) && |g.ops| > 0 && g.serial == KQ.INITIAL && c.serial.maxDepthPerKey >= 1
    requires g.ops[0].inner.Idle? && StatusOf(g.fair, g.ops[0]).Active?
    ensures Reaches(c, states', steps', g') && g'.fair == g.fair && g'.table == g.table && g'.inFlight == g.inFlight
    ensures g'.ops == g.ops[0 := g.ops[0].(inner := InLine, entry := Some(0))]
    ensures g'.serial == KQ.Enter(c.serial, KQ.INITIAL, g.ops[0].event.conversation)
  {
    Known(c, states, steps, g);
    FirstEnters(c.serial, g.ops[0].event.conversation);
    g' := Plain(c, g, Begin(0));
    states', steps' := Extend(c, states, steps, g, Begin(0), g');
  }

  lemma FirstTakesTurn(c: Config, states: seq<State>, steps: seq<Step>, g: State)
    returns (states': seq<State>, steps': seq<Step>, g': State)
    requires Reaches(c, states, steps, g) && |g.ops| > 0 && c.serial.maxDepthPerKey >= 1
    requires g.serial == KQ.Enter(c.serial, KQ.INITIAL, g.ops[0].event.conversation)
    requires g.ops[0].inner.InLine? && g.ops[0].entry == Some(0)
    ensures Reaches(c, states', steps', g') && g'.fair == g.fair && g'.table == g.table && g'.inFlight == g.inFlight
    ensures g'.ops == g.ops[0 := g.ops[0].(inner := Handling)] && g'.serial == Occupied(g.ops[0].event.conversation)
  {
    Known(c, states, steps, g);
    FirstEnters(c.serial, g.ops[0].event.conversation);
    assert EntryOf(g, 0) == 0 && KQ.Enabled(c.serial, g.serial, KQ.StartStep(0));
    g' := Plain(c, g, TakeTurn(0));
    states', steps' := Extend(c, states, steps, g, TakeTurn(0), g');
  }

  lemma LostLast(c: Config, states: seq<State>, steps: seq<Step>, g: State, step: Step, i: nat)
    requires |states| == |steps| + 1 && |steps| > 0 && states[|steps| - 1] == g && steps[|steps| - 1] == step
    requires LosesClaim(c, g, step, i)
    ensures Lost(c, states, steps, |steps|, i)
  {
    assert LosesClaim(c, states[|steps| - 1], steps[|steps| - 1], i);
  }

  lemma StillLost(c: Config, states: seq<State>, steps: seq<Step>, states': seq<State>, steps': seq<Step>, i: nat)
    requires |steps| <= |states| && |steps'| <= |states'| && states <= states' && steps <= steps'
    requires Lost(c, states, steps, |steps|, i)
    ensures Lost(c, states', steps', |steps'|, i)
  {
    var m :| 0 <= m < |steps| && LosesClaim(c, states[m], steps[m], i);
    assert LosesClaim(c, states'[m], steps'[m], i);
  }

  lemma SecondLinesUp(c: Config, states: seq<State>, steps: seq<Step>, g: State)
    returns (states': seq<State>, steps': seq<Step>, g': State)
    requires Reaches(c, states, steps, g) && |g.ops| > 1 && c.serial.maxDepthPerKey >= 2
    requires g.serial == Occupied(g.ops[1].event.conversation)
    requires g.ops[1].inner.Idle? && StatusOf(g.fair, g.ops[1]).Active?
    ensures Reaches(c, states', steps', g') && g'.table == g.table && g'.fair == g.fair
    ensures g'.ops == g.ops[1 := g.ops[1].(inner := InLine, entry := Some(1))]
    ensures g'.serial == KQ.Enter(c.serial, g.serial, g.ops[1].event.conversation)
    ensures |g'.serial.phases| == 2 && g'.serial.phases[1].Waiting? && |g'.serial.links| == 2
  {
    Known(c, states, steps, g);
    assert KQ.Admits(c.serial, g.serial, g.ops[1].event.conversation);
    g' := Plain(c, g, Begin(1));
    states', steps' := Extend(c, states, steps, g, Begin(1), g');
  }

  lemma SecondTimesOut(c: Config, states: seq<State>, steps: seq<Step>, g: State)
    returns (states': seq<State>, steps': seq<Step>, g': State)
    requires Reaches(c, states, steps, g) && |g.ops| > 1 && c.serial.maxWaitMs > 0
    requires g.ops[1].inner.InLine? && g.ops[1].entry == Some(1)
    requires |g.serial.links| == |g.serial.phases| == 2 && g.serial.phases[1].Waiting?
    ensures Reaches(c, states', steps', g') && g'.table == g.table && g'.fair == g.fair
    ensures g'.ops == g.ops[1 := g.ops[1].(inner := Finishing)] && Lost(c, states', steps', |steps'|, 1)
  {
    Known(c, states, steps, g);
    g' := Missing(c, g, 1, 1);
    states', steps' := Extend(c, states, steps, g, MissTurn(1), g');
    LostLast(c, states', steps', g, MissTurn(1), 1);
  }

  lemma GivesBackSlot(c: Config, states: seq<State>, steps: seq<Step>, g: State, i: nat)
    returns (states': seq<State>, steps': seq<Step>, g': State)
    requires Reaches(c, states, steps, g) && i < |g.ops| && g.ops[i].inner.Finishing?
    ensures Reaches(c, states', steps', g') && states <= states' && steps <= steps' && g'.table == g.table
    ensures g'.ops == g.ops[i := g.ops[i].(inner := Done)] && StatusOf(g'.fair, g'.ops[i]).Finished?
  {
    Known(c, states, steps, g);
    g' := Ending(c, g, i);
    states', steps' := Extend(c, states, steps, g, Finish(i), g');
  }

  lemma Closes(c: Config, states: seq<State>, steps: seq<Step>, g: State, i: nat)
    returns (states': seq<State>, steps': seq<Step>, g': State)
    requires Reaches(c, states, steps, g) && i < |g.ops| && g.ops[i].outer.Returning?
    ensures Reaches(c, states', steps', g') && states <= states' && steps <= steps' && g'.table == g.table
    ensures g'.ops == g.ops[i := g.ops[i].(outer := Closed)]
  {
    Known(c, states, steps, g);
    g' := Plain(c, g, Close(i));
    states', steps' := Extend(c, states, steps, g, Close(i), g');
  }

  /** After either error the operation only gives back its slot and returns. */
  lemma Wraps(c: Config, states: seq<State>, steps: seq<Step>, g: State, i: nat)
    returns (states': seq<State>, steps': seq<Step>, g': State)
    requires Reaches(c, states, steps, g) && i < |g.ops| && g.ops[i].inner.Finishing? && g.ops[i].outer.Awaiting?
    ensures Reaches(c, states', steps', g') && states <= states' && steps <= steps' && g'.table == g.table
    ensures g'.ops == g.ops[i := g.ops[i].(inner := Done, outer := Closed)]
  {
    var g1, g2;
    states', steps', g1 := GivesBackSlot(c, states, steps, g, i);
    states', steps', g2 := ResumesFinished(c, states', steps', g1, i);
    states', steps', g' := Closes(c, states', steps', g2, i);
  }

  lemma ResumesFinished(c: Config, states: seq<State>, steps: seq<Step>, g: State, i: nat)
    returns (states': seq<State>, steps': seq<Step>, g': State)
    requires Reaches(c, states, steps, g) && i < |g.ops| && g.ops[i].outer.Awaiting?
    requires StatusOf(g.fair, g.ops[i]).Finished?
    ensures Reaches(c, states', steps', g') && states <= states' && steps <= steps' && g'.table == g.table
    ensures g'.ops == g.ops[i := g.ops[i].(outer := Returning)]
  {
    Known(c, states, steps, g);
    g' := Plain(c, g, Resume(i));
    states', steps' := Extend(c, states, steps, g, Resume(i), g');
  }

  /** Two events of one conversation. */
  function EventOf(key: string): Event {
    Event(key, "connection", "conversation", 0)
  }

  lemma FirstAdmitted(c: Config) returns (states: seq<State>, steps: seq<Step>, g: State)
    requires c.limits.maxGlobalActive >= 1 && c.limits.maxConnectionActive >= 1
    ensures Reaches(c, states, steps, g) && |g.ops| == 1 && g.serial == KQ.INITIAL && g.inFlight == map["a" := 0]
    ensures g.ops[0] == Claimed("a", EventOf("first")).(outer := Awaiting, task := Some(0))
    ensures FO.FastPath(FQ.INITIAL, g.fair, "connection", 0) && g.table.Keys <= {"first"}
  {
    var start := State(FQ.INITIAL, KQ.INITIAL, map[], [], map[]);
    StartingHolds(c, start);
    assert Reaches(c, [start], [], start);
    states, steps, g := Admitted(c, [start], [], start, "a", EventOf("first"));
  }

  /** The first event has the turn of the conversation. */
  lemma FirstIsHandled(c: Config) returns (states: seq<State>, steps: seq<Step>, g: State)
    requires c.limits.maxGlobalActive >= 1 && c.limits.maxConnectionActive >= 1 && c.serial.maxDepthPerKey >= 1
    ensures Reaches(c, states, steps, g) && |g.ops| == 1 && g.serial == Occupied("conversation")
    ensures g.inFlight == map["a" := 0] && g.table.Keys <= {"first"} && FO.FastPath(FQ.INITIAL, g.fair, "connection", 0)
  {
    var g1, g2;
    states, steps, g1 := FirstAdmitted(c);
    states, steps, g2 := FirstBegins(c, states, steps, g1);
    states, steps, g := FirstTakesTurn(c, states, steps, g2);
  }

  lemma BothAdmitted(c: Config) returns (states: seq<State>, steps: seq<Step>, g: State)
    requires c.limits.maxGlobalActive >= 2 && c.limits.maxConnectionActive >= 2 && c.serial.maxDepthPerKey >= 1
    ensures Reaches(c, states, steps, g) && |g.ops| == 2 && g.serial == Occupied("conversation")
    ensures g.ops[1] == Claimed("b", EventOf("second")).(outer := Awaiting, task := Some(1))
    ensures StatusOf(g.fair, g.ops[1]).Active?
    ensures "second" in g.table && g.table["second"].progress.Processing?
  {
    var g1;
    states, steps, g1 := FirstIsHandled(c);
    states, steps, g := Admitted(c, states, steps, g1, "b", EventOf("second"));
  }

  /** The claim of the event outlives its operation, which neither completed nor released it. */
  ghost predicate LeavesClaim(c: Config, states: seq<State>, steps: seq<Step>, g: State, i: nat) {
    && Reaches(c, states, steps, g) && i < |g.ops| && g.ops[i].outer.Closed? && g.ops[i].claimed
    && g.ops[i].event.key in g.table && g.table[g.ops[i].event.key].progress.Processing?
    && !Wrote(steps, |steps|, i)
  }

  /** Back from the keyed queue with a timeout, the second event. */
  lemma SecondFails(c: Config) returns (states: seq<State>, steps: seq<Step>, g: State)
    requires c.limits.maxGlobalActive >= 2 && c.limits.maxConnectionActive >= 2
    requires c.serial.maxDepthPerKey >= 2 && c.serial.maxWaitMs > 0
    ensures Reaches(c, states, steps, g) && |g.ops| == 2 && FailedInQueue(c, states, steps, g, 1)
  {
    states, steps, g := BothAdmitted(c);
    states, steps, g := SecondLinesUp(c, states, steps, g);
    states, steps, g := SecondTimesOut(c, states, steps, g);
  }

  /** The operation has lost its claim in the keyed queue, and its record is there. */
  ghost predicate FailedInQueue(c: Config, states: seq<State>, steps: seq<Step>, g: State, i: nat)
    requires |steps| <= |states|
  {
    && i < |g.ops| && Lost(c, states, steps, |steps|, i)
    && g.ops[i].inner.Finishing? && g.ops[i].outer.Awaiting? && g.ops[i].claimed
    && g.ops[i].event.key in g.table && g.table[g.ops[i].event.key].progress.Processing?
  }

  lemma LeftByFailure(c: Config, states: seq<State>, steps: seq<Step>, g: State, i: nat)
    returns (states': seq<State>, steps': seq<Step>, g': State)
    requires Reaches(c, states, steps, g) && FailedInQueue(c, states, steps, g, i)
    ensures LeavesClaim(c, states', steps', g', i)
  {
    states', steps', g' := Wraps(c, states, steps, g, i);
    StillLost(c, states, steps, states', steps', i);
    LostClaimStaysUnwritten(c, states', steps', |steps'|, i);
  }

  // ----- Filling a conversation -----

  /** A name of its own for each event. */
  function Name(k: nat): string {
    seq(k, _ => 'a')
  }

  ghost predicate ShortNames(names: set<string>, k: nat) {
    forall name :: name in names ==> |name| < k
  }

  /** `k` events of one conversation are past the fair queue and in the keyed queue. */
  ghost predicate Filled(g: State, k: nat) {
    && |g.ops| == k && KQ.DepthOf(g.serial, "conversation") == k
    && (forall i :: 0 <= i < k ==> g.ops[i].event.conversation == "conversation")
    && (forall i :: 0 <= i < k ==> g.ops[i].event.connectionId == "connection")
    && g.fair.accepting && g.fair.active == k && g.fair.queued == 0 && FQ.ActiveOf(g.fair, "connection") == k
    && ShortNames(g.inFlight.Keys, k) && ShortNames(g.table.Keys, k)
  }

  /** One more event of the conversation has a slot. */
  ghost predicate OneMore(g: State, k: nat) {
    && |g.ops| == k + 1 && KQ.DepthOf(g.serial, "conversation") == k && g.ops[k].inner.Idle? && g.ops[k].claimed
    && g.ops[k].outer.Awaiting? && StatusOf(g.fair, g.ops[k]).Active?
    && (forall i :: 0 <= i <= k ==> g.ops[i].event.conversation == "conversation")
    && (forall i :: 0 <= i <= k ==> g.ops[i].event.connectionId == "connection")
    && g.fair.accepting && g.fair.active == k + 1 && g.fair.queued == 0 && FQ.ActiveOf(g.fair, "connection") == k + 1
    && ShortNames(g.inFlight.Keys, k + 1) && ShortNames(g.table.Keys, k + 1)
    && g.ops[k].event.key in g.table && g.table[g.ops[k].event.key].progress.Processing?
  }

  lemma AdmittedIsOneMore(g: State, g': State, k: nat)
    requires Filled(g, k) && |g.fair.tasks| == |g.fair.status|
    requires FO.FastPath(g.fair, g'.fair, "connection", 0) && g'.serial == g.serial
    requires g'.ops == g.ops + [Claimed(Name(k), EventOf(Name(k))).(outer := Awaiting, task := Some(|g.fair.tasks|))]
    requires g'.inFlight == g.inFlight[Name(k) := |g.ops|] && HeldBy(g.table, g'.table, Name(k))
    ensures OneMore(g', k)
  {
    forall name | name in g'.table.Keys ensures |name| < k + 1 {
      assert name in g.table.Keys || name == Name(k);
    }
  }

  lemma AddOne(c: Config, states: seq<State>, steps: seq<Step>, g: State, k: nat)
    returns (states': seq<State>, steps': seq<Step>, g': State)
    requires Reaches(c, states, steps, g) && Filled(g, k)
    requires k < c.limits.maxGlobalActive && k < c.limits.maxConnectionActive
    ensures Reaches(c, states', steps', g') && OneMore(g', k)
  {
    Recorded(c, states, steps, g);
    assert Name(k) !in g.inFlight && Name(k) !in g.table;
    states', steps', g' := Admitted(c, states, steps, g, Name(k), EventOf(Name(k)));
    AdmittedIsOneMore(g, g', k);
  }

  lemma Recorded(c: Config, states: seq<State>, steps: seq<Step>, g: State)
    requires Reaches(c, states, steps, g)
    ensures |g.fair.tasks| == |g.fair.status|
  {
    Known(c, states, steps, g);
  }

  lemma EntersQueue(c: Config, states: seq<State>, steps: seq<Step>, g: State, k: nat)
    returns (states': seq<State>, steps': seq<Step>, g': State)
    requires Reaches(c, states, steps, g) && OneMore(g, k) && k < c.serial.maxDepthPerKey
    ensures Reaches(c, states', steps', g') && Filled(g', k + 1)
  {
    Known(c, states, steps, g);
    g' := LinesUp(c, g, k);
    states', steps' := Extend(c, states, steps, g, Begin(k), g');
    LinedUpIsFilled(c, g, g', k);
  }

  lemma LinedUpIsFilled(c: Config, g: State, g': State, k: nat)
    requires OneMore(g, k) && k < c.serial.maxDepthPerKey
    requires g'.fair == g.fair && g'.table == g.table && g'.inFlight == g.inFlight
    requires g'.serial == KQ.Enter(c.serial, g.serial, "conversation")
    requires |g'.ops| == |g.ops| && forall i :: 0 <= i < |g.ops| ==> g'.ops[i].event == g.ops[i].event
    ensures Filled(g', k + 1)
  {
  }

  lemma {:induction false} FillTo(c: Config, k: nat) returns (states: seq<State>, steps: seq<Step>, g: State)
    requires k <= c.limits.maxGlobalActive && k <= c.limits.maxConnectionActive && k <= c.serial.maxDepthPerKey
    ensures Reaches(c, states, steps, g) && Filled(g, k)
  {
    if k == 0 {
      g := State(FQ.INITIAL, KQ.INITIAL, map[], [], map[]);
      StartingHolds(c, g);
      states, steps := [g], [];
    } else {
      states, steps, g := FillTo(c, k - 1);
      states, steps, g := AddOne(c, states, steps, g, k - 1);
      states, steps, g := EntersQueue(c, states, steps, g, k - 1);
    }
  }

  /** With more slots than a conversation has room for, one event too many finds it full. */
  lemma OneTooMany(c: Config) returns (states: seq<State>, steps: seq<Step>, g: State)
    requires !SlotsFitDepth(c)
    ensures Reaches(c, states, steps, g) && |steps| > 0
    ensures FindsFullAt(c, states, steps, |steps| - 1, c.serial.maxDepthPerKey)
    ensures FailedInQueue(c, states, steps, g, c.serial.maxDepthPerKey)
  {
    var k := c.serial.maxDepthPerKey;
    var g1;
    states, steps, g1 := FillTo(c, k);
    states, steps, g1 := AddOne(c, states, steps, g1, k);
    states, steps, g := IsTurnedAway(c, states, steps, g1, k);
  }

  lemma IsTurnedAway(c: Config, states: seq<State>, steps: seq<Step>, g: State, k: nat)
    returns (states': seq<State>, steps': seq<Step>, g': State)
    requires Reaches(c, states, steps, g) && OneMore(g, k) && k == c.serial.maxDepthPerKey
    ensures Reaches(c, states', steps', g') && |steps'| > 0
    ensures FindsFullAt(c, states', steps', |steps'| - 1, k) && FailedInQueue(c, states', steps', g', k)
  {
    Known(c, states, steps, g);
    g' := FindsFull(c, g, k);
    states', steps' := Extend(c, states, steps, g, Begin(k), g');
    LostLast(c, states', steps', g, Begin(k), k);
    FullLast(c, states', steps', g, k);
  }

  lemma FullLast(c: Config, states: seq<State>, steps: seq<Step>, g: State, k: nat)
    requires IsRun(c, states, steps) && Starting(states[0]) && |steps| > 0
    requires states[|steps| - 1] == g && steps[|steps| - 1] == Begin(k)
    requires OneMore(g, k) && k == c.serial.maxDepthPerKey
    ensures FindsFullAt(c, states, steps, |steps| - 1, k)
  {
  }

  ghost predicate MayFindFull(c: Config) {
    exists states, steps, m, i :: FindsFullAt(c, states, steps, m, i)
  }

  /** Exactly which configurations can find a conversation full: those with more slots, in all and for a connection,
      than entries for a conversation. */
  lemma FullIff(c: Config)
    ensures MayFindFull(c) <==> !SlotsFitDepth(c)
  {
    if SlotsFitDepth(c) {
      forall states, steps, m, i ensures !FindsFullAt(c, states, steps, m, i) {
        NeverFull(c, states, steps, m, i);
      }
    } else {
      var states, steps, g := OneTooMany(c);
    }
  }

  /** A claim can be left `processing`: with a limit on waiting, by a timeout in the keyed queue; with more slots than
      entries for a conversation, by finding it full. */
  lemma ClaimIsLeft(c: Config) returns (states: seq<State>, steps: seq<Step>, g: State, i: nat)
    requires || !SlotsFitDepth(c)
             || (c.serial.maxWaitMs > 0 && c.serial.maxDepthPerKey >= 2 &&
                 c.limits.maxGlobalActive >= 2 && c.limits.maxConnectionActive >= 2)
    ensures LeavesClaim(c, states, steps, g, i)
  {
    if !SlotsFitDepth(c) {
      states, steps, g := OneTooMany(c);
      i := c.serial.maxDepthPerKey;
    } else {
      states, steps, g := SecondFails(c);
      i := 1;
    }
    states, steps, g := LeftByFailure(c, states, steps, g, i);
  }
}
