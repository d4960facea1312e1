/** More that holds in every run of the gateway: refusals, exclusion, concurrency caps, claims left behind. */
module GatewaySafety {
  import opened Wrappers
  import FQ = FairQueue
  import FO = FairQueueOperations
  import opened FairQueueMoves
  import KQ = KeyedQueue
  import KX = KeyedQueueExclusion
  import Ledger
  import opened Gateway
  import opened GatewayInvariant
  import opened GatewayRuns

  // ----- Without expiry or deletion -----

  /** Every stored reply decodes. */
  predicate Readable(t: Ledger.Table) {
    forall key :: key in t ==> t[key].progress != Ledger.Completed(None)
  }

  lemma TableStaysReadable(c: Config, t: Ledger.Table, ops: seq<Operation>, step: Step)
    requires Readable(t)
    ensures Readable(TableAfter(c, t, ops, step))
  {
  }

  lemma {:induction false} NothingUnreadable(c: Config, states: seq<State>, steps: seq<Step>, n: nat, key: Ledger.Key)
    requires IsRun(c, states, steps) && Readable(states[0].table) && n <= |steps|
    ensures Readable(states[n].table) && Count(states, steps, n, LossOf(key, Unreadable)) == 0
  {
    if n > 0 {
      NothingUnreadable(c, states, steps, n - 1, key);
      assert FollowsAt(c, states, steps, n - 1);
      var g, step := states[n - 1], steps[n - 1];
      NextTable(c, g, step, FairAfter(c, g, step));
      TableStaysReadable(c, g.table, g.ops, step);
    }
  }

  /** While the record neither expires nor is deleted, one send and one more per retryable error. */
  lemma OncePlusRetries(c: Config, states: seq<State>, steps: seq<Step>, n: nat, key: Ledger.Key)
    requires IsRun(c, states, steps) && Starting(states[0]) && Readable(states[0].table) && n <= |steps|
    requires Count(states, steps, n, LossOf(key, Expired)) == 0 && Count(states, steps, n, LossOf(key, Deleted)) == 0
    ensures Count(states, steps, n, SendOf(key)) <= 1 + Count(states, steps, n, RetryableErrorOf(key))
  {
    AtMostOnce(c, states, steps, n, key);
    NothingUnreadable(c, states, steps, n, key);
  }

  // ----- The life of an operation -----

  lemma LocalIsLater(g: State, step: Step, op: Operation)
    requires IsLocal(step) && LocalEnabled(g, step, op)
    ensures Later(op, LocalOp(g, step, op))
  {
  }

  lemma ReplacedLater(ops: seq<Operation>, ops': seq<Operation>, i: nat)
    requires i < |ops| && |ops'| == |ops| && ops' == ops[i := ops'[i]] && Later(ops[i], ops'[i])
    ensures AllLater(ops, ops')
  {
  }

  /** Operations only move forward. */
  lemma StepIsLater(c: Config, g: State, step: Step, fair': FQ.State)
    requires Sound(g) && Enabled(c, g, step)
    ensures AllLater(g.ops, Next(c, g, step, fair').ops)
  {
    var ops' := Next(c, g, step, fair').ops;
    if IsLocal(step) {
      LocalStepAfter(c, g, step, fair');
      LocalIsLater(g, step, g.ops[step.i]);
      ReplacedLater(g.ops, ops', step.i);
    } else if step.Handle? || step.Queue? || step.Purge? || step.Delete? {
      AppendedLater(c, g, step, fair');
    } else {
      OneStepAfter(c, g, step, fair');
      ReplacedLater(g.ops, ops', step.i);
    }
  }

  lemma AppendedLater(c: Config, g: State, step: Step, fair': FQ.State)
    requires Sound(g) && Enabled(c, g, step) && (step.Handle? || step.Queue? || step.Purge? || step.Delete?)
    ensures AllLater(g.ops, Next(c, g, step, fair').ops)
  {
  }

  lemma StepMoves(c: Config, g: State, step: Step) returns (completed: Option<nat>)
    requires Inv(c, g) && Enabled(c, g, step)
    ensures Moves(g.fair, FairAfter(c, g, step), completed)
  {
    StillMoves(g.fair, g.fair);
    completed := None;
    match step
    case Enter(i) => ExecuteMoves(c.limits, g.fair, FO.Run(g.ops[i].event.connectionId, g.ops[i].event.bytes));
    case Finish(i) =>
      ExecuteMoves(c.limits, g.fair, FO.Complete(TaskOf(g, i)));
      completed := Some(TaskOf(g, i));
    case Queue(op) => ExecuteMoves(c.limits, g.fair, op);
    case _ =>
  }

  lemma LaterTransitive(ops: seq<Operation>, mid: seq<Operation>, ops': seq<Operation>)
    requires AllLater(ops, mid) && AllLater(mid, ops')
    ensures AllLater(ops, ops')
  {
    forall i | 0 <= i < |ops| ensures Later(ops[i], ops'[i]) {
      assert Later(ops[i], mid[i]) && Later(mid[i], ops'[i]);
    }
  }

  lemma LaterReflexive(ops: seq<Operation>)
    ensures AllLater(ops, ops)
  {
  }

  lemma LaterAt(c: Config, states: seq<State>, steps: seq<Step>, m: nat)
    requires |states| == |steps| + 1 && m < |steps| && FollowsAt(c, states, steps, m)
    ensures AllLater(states[m].ops, states[m + 1].ops)
  {
    StepIsLater(c, states[m], steps[m], FairAfter(c, states[m], steps[m]));
  }

  ghost predicate LaterStep(states: seq<State>, m: nat)
    requires m + 1 < |states|
  {
    AllLater(states[m].ops, states[m + 1].ops)
  }

  ghost predicate LaterThroughout(states: seq<State>) {
    forall m {:trigger LaterStep(states, m)} :: 0 <= m < |states| - 1 ==> LaterStep(states, m)
  }

  lemma {:induction false} LaterFrom(states: seq<State>, a: nat, b: nat)
    requires LaterThroughout(states) && a <= b < |states|
    ensures AllLater(states[a].ops, states[b].ops)
    decreases b - a
  {
    if a == b {
      LaterReflexive(states[a].ops);
    } else {
      LaterFrom(states, a, b - 1);
      assert LaterStep(states, b - 1);
      LaterTransitive(states[a].ops, states[b - 1].ops, states[b].ops);
    }
  }

  lemma RunIsLater(c: Config, states: seq<State>, steps: seq<Step>, a: nat, b: nat)
    requires IsRun(c, states, steps) && a <= b < |states|
    ensures AllLater(states[a].ops, states[b].ops)
  {
    forall m | 0 <= m < |states| - 1 ensures LaterStep(states, m) {
      LaterAt(c, states, steps, m);
    }
    LaterFrom(states, a, b);
  }

  // ----- Refused events -----

  /** The fair queue rejected, expired or cancelled the operation's task. */
  predicate WasRefused(g: State, i: nat) {
    i < |g.ops| && g.ops[i].task.Some? && TurnedAway(StatusOf(g.fair, g.ops[i]))
  }

  lemma RefusalLasts(g: State, g': State, completed: Option<nat>, i: nat)
    requires WasRefused(g, i) && Moves(g.fair, g'.fair, completed) && AllLater(g.ops, g'.ops)
    ensures WasRefused(g', i)
  {
    assert Later(g.ops[i], g'.ops[i]);
    assert MovesAt(g.fair, g'.fair, completed, g.ops[i].task.value);
  }

  lemma NextFair(c: Config, g: State, step: Step, fair': FQ.State)
    requires Sound(g) && Enabled(c, g, step) && (step.Enter? || step.Finish? || step.Queue? || fair' == g.fair)
    ensures Next(c, g, step, fair').fair == fair'
  {
  }

  lemma StepKeepsRefusal(c: Config, g: State, step: Step, i: nat)
    requires Inv(c, g) && Enabled(c, g, step) && WasRefused(g, i)
    ensures WasRefused(Apply(c, g, step), i)
  {
    var completed := StepMoves(c, g, step);
    StepIsLater(c, g, step, FairAfter(c, g, step));
    NextFair(c, g, step, FairAfter(c, g, step));
    RefusalLasts(g, Apply(c, g, step), completed, i);
  }

  ghost predicate RefusalStep(states: seq<State>, m: nat, i: nat)
    requires m + 1 < |states|
  {
    WasRefused(states[m], i) ==> WasRefused(states[m + 1], i)
  }

  lemma KeepsRefusalAt(c: Config, states: seq<State>, steps: seq<Step>, m: nat, i: nat)
    requires |states| == |steps| + 1 && m < |steps| && FollowsAt(c, states, steps, m)
    ensures RefusalStep(states, m, i)
  {
    if WasRefused(states[m], i) {
      StepKeepsRefusal(c, states[m], steps[m], i);
    }
  }

  lemma {:induction false} RefusalFrom(states: seq<State>, a: nat, b: nat, i: nat)
    requires a <= b < |states| && WasRefused(states[a], i)
    requires forall m {:trigger RefusalStep(states, m, i)} :: 0 <= m < |states| - 1 ==> RefusalStep(states, m, i)
    ensures WasRefused(states[b], i)
    decreases b - a
  {
    if a < b {
      RefusalFrom(states, a, b - 1, i);
      assert RefusalStep(states, b - 1, i);
    }
  }

  lemma RunKeepsRefusal(c: Config, states: seq<State>, steps: seq<Step>, a: nat, b: nat, i: nat)
    requires IsRun(c, states, steps) && a <= b < |states| && WasRefused(states[a], i)
    ensures WasRefused(states[b], i)
  {
    forall m | 0 <= m < |states| - 1 ensures RefusalStep(states, m, i) {
      KeepsRefusalAt(c, states, steps, m, i);
    }
    RefusalFrom(states, a, b, i);
  }

  lemma RefusedIsIdle(c: Config, g: State, i: nat)
    requires Inv(c, g) && WasRefused(g, i)
    ensures g.ops[i].inner.Idle? && !g.ops[i].sent
  {
    assert Coherent(g.fair, g.serial, g.ops[i]);
  }

  lemma SendMarks(c: Config, g: State, i: nat)
    requires Inv(c, g) && Enabled(c, g, Send(i))
    ensures i < |Apply(c, g, Send(i)).ops| && Apply(c, g, Send(i)).ops[i].sent
  {
  }

  lemma RefusedNotSentLater(c: Config, states: seq<State>, steps: seq<Step>, a: nat, m: nat, i: nat)
    requires IsRun(c, states, steps) && a <= m < |steps| && WasRefused(states[a], i)
    ensures steps[m] != Send(i)
  {
    assert FollowsAt(c, states, steps, m);
    RunKeepsRefusal(c, states, steps, a, m, i);
    RefusedIsIdle(c, states[m], i);
  }

  lemma SentStaysMarked(c: Config, states: seq<State>, steps: seq<Step>, a: nat, m: nat, i: nat)
    requires IsRun(c, states, steps) && m < a < |states| && steps[m] == Send(i)
    ensures i < |states[a].ops| && states[a].ops[i].sent
  {
    assert FollowsAt(c, states, steps, m);
    SendMarks(c, states[m], i);
    RunIsLater(c, states, steps, m + 1, a);
    assert Later(states[m + 1].ops[i], states[a].ops[i]);
  }

  /** An event the fair queue turned away, for overload, a drain, an expiry or a cancellation, never
      reaches the transport, neither before nor after. */
  lemma RefusedNeverSent(c: Config, states: seq<State>, steps: seq<Step>, a: nat, m: nat, i: nat)
    requires IsRun(c, states, steps) && a < |states| && WasRefused(states[a], i) && m < |steps|
    ensures steps[m] != Send(i)
  {
    if a <= m {
      RefusedNotSentLater(c, states, steps, a, m, i);
    } else if steps[m] == Send(i) {
      SentStaysMarked(c, states, steps, a, m, i);
      RunKeepsInv(c, states, steps, a);
      RefusedIsIdle(c, states[a], i);
    }
  }

  // ----- What the transport answers reaches the ledger -----

  function WriteFor(outcome: Outcome): Write {
    if outcome.Answered? then Complete(outcome.reply) else Release
  }

  /** Step `m` settles what operation `i` will write: the transport has answered, or the event needs no answer. */
  predicate DecidesWrite(step: Step, i: nat, write: Write) {
    (step.Answer? && step.i == i && write == WriteFor(step.outcome))
    || (step.Ignore? && step.i == i && write == Complete(step.reply))
  }

  lemma DecisionMarks(c: Config, states: seq<State>, steps: seq<Step>, m: nat, i: nat, write: Write)
    requires IsRun(c, states, steps) && m < |steps| && DecidesWrite(steps[m], i, write)
    ensures i < |states[m + 1].ops| && states[m + 1].ops[i].inner == Writing(write)
  {
    assert FollowsAt(c, states, steps, m);
  }

  lemma RecordWrites(c: Config, states: seq<State>, steps: seq<Step>, n: nat, i: nat)
    requires IsRun(c, states, steps) && n < |steps| && steps[n].Record? && steps[n].i == i
    ensures i < |states[n].ops| && states[n].ops[i].inner.Writing?
    ensures states[n + 1].table
         == Written(c, states[n].table, states[n].ops[i].event.key, states[n].ops[i].inner.write, steps[n].now)
  {
    assert FollowsAt(c, states, steps, n);
  }

  // ----- Claims left behind -----

  lemma MissMarks(c: Config, g: State, i: nat)
    requires Inv(c, g) && Enabled(c, g, MissTurn(i))
    ensures i < |Apply(c, g, MissTurn(i)).ops| && Rank(Apply(c, g, MissTurn(i)).ops[i].inner) == 6
    ensures Apply(c, g, MissTurn(i)).table == g.table
  {
  }

  predicate Acts(step: Step, i: nat) {
    (step.Record? || step.Refuse? || step.Send?) && step.i == i
  }

  lemma PastItsTurn(c: Config, g: State, step: Step, i: nat)
    requires Inv(c, g) && Enabled(c, g, step) && i < |g.ops| && Rank(g.ops[i].inner) >= 6
    ensures !Acts(step, i)
  {
    assert Coherent(g.fair, g.serial, g.ops[i]);
  }

  /** An operation whose turn in the keyed queue never came writes nothing more to the ledger and never
      sends: its claim stays as it is until the lease ends. */
  lemma MissedTurnLeavesClaim(c: Config, states: seq<State>, steps: seq<Step>, a: nat, m: nat, i: nat)
    requires IsRun(c, states, steps) && a < m < |steps| && steps[a] == MissTurn(i)
    ensures states[a + 1].table == states[a].table && !Acts(steps[m], i)
  {
    MissedAt(c, states, steps, a, i);
    RunIsLater(c, states, steps, a + 1, m);
    assert Later(states[a + 1].ops[i], states[m].ops[i]);
    PastItsTurnAt(c, states, steps, m, i);
  }

  lemma MissedAt(c: Config, states: seq<State>, steps: seq<Step>, a: nat, i: nat)
    requires IsRun(c, states, steps) && a < |steps| && steps[a] == MissTurn(i)
    ensures states[a + 1].table == states[a].table
    ensures i < |states[a + 1].ops| && Rank(states[a + 1].ops[i].inner) == 6
  {
    assert FollowsAt(c, states, steps, a);
    MissMarks(c, states[a], i);
  }

  lemma PastItsTurnAt(c: Config, states: seq<State>, steps: seq<Step>, m: nat, i: nat)
    requires IsRun(c, states, steps) && m < |steps| && i < |states[m].ops| && Rank(states[m].ops[i].inner) >= 6
    ensures !Acts(steps[m], i)
  {
    assert FollowsAt(c, states, steps, m);
    PastItsTurn(c, states[m], steps[m], i);
  }

  // ----- One conversation at a time -----

  /** The keyed-queue step inside a gateway step, if any. */
  ghost function SerialStep(c: Config, g: State, step: Step): Option<KQ.Step>
    requires Sound(g) && Enabled(c, g, step)
  {
    if step.Begin? then Some(KQ.EnterStep(g.ops[step.i].event.conversation))
    else if step.TakeTurn? then Some(KQ.StartStep(EntryOf(g, step.i)))
    else if step.MissTurn? then Some(KQ.TimeOutStep(EntryOf(g, step.i)))
    else if step.Leave? then Some(KQ.FinishStep(EntryOf(g, step.i)))
    else None
  }

  ghost predicate SerialMove(c: Config, g: State, step: Step, serial': KQ.State)
    requires Sound(g) && Enabled(c, g, step)
  {
    match SerialStep(c, g, step)
    case None => serial' == g.serial
    case Some(move) => KQ.Enabled(c.serial, g.serial, move) && serial' == KQ.Apply(c.serial, g.serial, move)
  }

  lemma KeyedStepFollows(c: Config, g: State, step: Step, fair': FQ.State)
    requires Sound(g) && (step.Begin? || step.TakeTurn? || step.MissTurn? || step.Leave?) && Enabled(c, g, step)
    ensures SerialMove(c, g, step, Next(c, g, step, fair').serial)
  {
    if step.Leave? {
      assert Coherent(g.fair, g.serial, g.ops[step.i]);
    }
  }

  lemma OtherStepFollows(c: Config, g: State, step: Step, fair': FQ.State)
    requires Sound(g) && !(step.Begin? || step.TakeTurn? || step.MissTurn? || step.Leave?) && Enabled(c, g, step)
    ensures SerialMove(c, g, step, Next(c, g, step, fair').serial)
  {
  }

  /** A gateway step moves the keyed queue by one of the keyed queue's own steps or not at all. */
  lemma SerialFollows(c: Config, g: State, step: Step, fair': FQ.State)
    requires Sound(g) && Enabled(c, g, step)
    ensures SerialMove(c, g, step, Next(c, g, step, fair').serial)
  {
    if step.Begin? || step.TakeTurn? || step.MissTurn? || step.Leave? {
      KeyedStepFollows(c, g, step, fair');
    } else {
      OtherStepFollows(c, g, step, fair');
    }
  }

  /** A timed-out entry takes the stored tail of its conversation away from an earlier open entry. */
  ghost predicate CutsAt(c: Config, g: State, step: Step) {
    Inv(c, g) && Enabled(c, g, step) && step.MissTurn? && KX.CutsChain(g.serial, KQ.TimeOutStep(EntryOf(g, step.i)))
  }

  lemma StepStaysSerial(c: Config, g: State, step: Step)
    requires Inv(c, g) && Enabled(c, g, step) && !CutsAt(c, g, step) && KX.Serial(c.serial, g.serial)
    ensures KX.Serial(c.serial, Apply(c, g, step).serial)
  {
    SerialFollows(c, g, step, FairAfter(c, g, step));
    if SerialStep(c, g, step).Some? {
      KX.StepSerial(c.serial, g.serial, SerialStep(c, g, step).value);
    }
  }

  ghost predicate NeverCuts(c: Config, states: seq<State>, steps: seq<Step>)
    requires |steps| <= |states|
  {
    forall m {:trigger CutsAt(c, states[m], steps[m])} :: 0 <= m < |steps| ==> !CutsAt(c, states[m], steps[m])
  }

  lemma StartsSerial(c: KQ.Config)
    ensures KX.Serial(c, KQ.INITIAL)
  {
  }

  ghost predicate StaysSerial(c: Config, states: seq<State>, m: nat)
    requires m + 1 < |states|
  {
    KX.Serial(c.serial, states[m].serial) ==> KX.Serial(c.serial, states[m + 1].serial)
  }

  lemma StaysSerialAt(c: Config, states: seq<State>, steps: seq<Step>, m: nat)
    requires |states| == |steps| + 1 && m < |steps| && FollowsAt(c, states, steps, m)
    requires !CutsAt(c, states[m], steps[m])
    ensures StaysSerial(c, states, m)
  {
    if KX.Serial(c.serial, states[m].serial) {
      StepStaysSerial(c, states[m], steps[m]);
    }
  }

  lemma {:induction false} SerialFrom(c: Config, states: seq<State>, n: nat)
    requires n < |states| && KX.Serial(c.serial, states[0].serial)
    requires forall m {:trigger StaysSerial(c, states, m)} :: 0 <= m < |states| - 1 ==> StaysSerial(c, states, m)
    ensures KX.Serial(c.serial, states[n].serial)
  {
    if n > 0 {
      SerialFrom(c, states, n - 1);
      assert StaysSerial(c, states, n - 1);
    }
  }

  lemma ConversationsStaySerial(c: Config, states: seq<State>, steps: seq<Step>, n: nat)
    requires IsRun(c, states, steps) && Starting(states[0]) && n < |states| && NeverCuts(c, states, steps)
    ensures KX.Serial(c.serial, states[n].serial)
  {
    StartsSerial(c.serial);
    forall m | 0 <= m < |states| - 1 ensures StaysSerial(c, states, m) {
      assert !CutsAt(c, states[m], steps[m]);
      StaysSerialAt(c, states, steps, m);
    }
    SerialFrom(c, states, n);
  }

  lemma SerialMeansAlone(c: Config, g: State, i: nat, j: nat)
    requires Inv(c, g) && KX.Serial(c.serial, g.serial) && i < |g.ops| && j < |g.ops| && i != j
    requires g.ops[i].inner.HasTurn() && g.ops[j].inner.HasTurn()
    ensures g.ops[i].event.conversation != g.ops[j].event.conversation
  {
    assert Coherent(g.fair, g.serial, g.ops[i]) && Coherent(g.fair, g.serial, g.ops[j]);
    var a, b := EntryOf(g, i), EntryOf(g, j);
    assert a != b by {
      assert if i < j then g.ops[i].entry != g.ops[j].entry else g.ops[j].entry != g.ops[i].entry;
    }
    KX.RunningAlone(c.serial, g.serial, a, b);
  }

  /** Two events of one conversation are never handled, and so never sent, at the same time. */
  lemma OneTurnPerConversation(c: Config, states: seq<State>, steps: seq<Step>, n: nat, i: nat, j: nat)
    requires IsRun(c, states, steps) && Starting(states[0]) && n < |states|
    requires i < |states[n].ops| && j < |states[n].ops|
    requires NeverCuts(c, states, steps)
    requires i != j && states[n].ops[i].inner.HasTurn() && states[n].ops[j].inner.HasTurn()
    ensures states[n].ops[i].event.conversation != states[n].ops[j].event.conversation
  {
    ConversationsStaySerial(c, states, steps, n);
    RunKeepsInv(c, states, steps, n);
    SerialMeansAlone(c, states[n], i, j);
  }

  /** Without a limit on waiting no run has a cut. */
  lemma NoWaitLimitNoCuts(c: Config, states: seq<State>, steps: seq<Step>)
    requires |steps| <= |states| && c.serial.maxWaitMs <= 0
    ensures NeverCuts(c, states, steps)
  {
    forall m | 0 <= m < |steps| ensures !CutsAt(c, states[m], steps[m]) {
      NoTimeoutNoCut(c, states[m], steps[m]);
    }
  }

  lemma NoTimeoutNoCut(c: Config, g: State, step: Step)
    requires c.serial.maxWaitMs <= 0
    ensures !CutsAt(c, g, step)
  {
  }

  /** So then every run serialises its conversations. */
  lemma OneTurnWithoutWaitLimit(c: Config, states: seq<State>, steps: seq<Step>, n: nat, i: nat, j: nat)
    requires IsRun(c, states, steps) && Starting(states[0]) && n < |states| && c.serial.maxWaitMs <= 0
    requires i < |states[n].ops| && j < |states[n].ops| && i != j
    requires states[n].ops[i].inner.HasTurn() && states[n].ops[j].inner.HasTurn()
    ensures states[n].ops[i].event.conversation != states[n].ops[j].event.conversation
  {
    NoWaitLimitNoCuts(c, states, steps);
    OneTurnPerConversation(c, states, steps, n, i, j);
  }

  // ----- Concurrency caps and coalescing -----

  predicate InScope(scope: Option<string>, op: Operation) {
    scope.Some? ==> op.event.connectionId == scope.value
  }

  /** The operations that hold one of the fair queue's slots, all or those of one connection. */
  ghost function Holding(g: State, scope: Option<string>): set<nat> {
    set i | 0 <= i < |g.ops| && g.ops[i].inner.HoldsSlot() && InScope(scope, g.ops[i])
  }

  function MeasureOf(scope: Option<string>): FQ.Measure {
    if scope.Some? then FQ.CountActiveOf(scope.value) else FQ.CountActive
  }

  lemma {:induction false} FewerThanTally(m: FQ.Measure, tasks: seq<FQ.Task>, status: seq<FQ.Status>, ids: set<nat>)
    requires |tasks| == |status|
    requires forall id :: id in ids ==> id < |tasks| && FQ.Weigh(m, tasks[id], status[id]) >= 1
    ensures |ids| <= FQ.Tally(m, tasks, status)
  {
    if tasks == [] {
      assert ids == {};
    } else {
      var last := |tasks| - 1;
      var rest := ids - {last};
      FewerThanTally(m, tasks[..last], status[..last], rest);
      assert last in ids ==> ids == rest + {last};
      assert last !in ids ==> ids == rest;
    }
  }

  lemma {:induction false} InjectionSize(ops: set<nat>, ids: set<nat>, f: map<nat, nat>)
    requires forall i :: i in ops ==> i in f && f[i] in ids
    requires forall i, j :: i in ops && j in ops && i != j ==> f[i] != f[j]
    ensures |ops| <= |ids|
  {
    if ops != {} {
      var i :| i in ops;
      InjectionSize(ops - {i}, ids - {f[i]}, f);
    }
  }

  lemma HeldTasks(g: State, scope: Option<string>, f: map<nat, nat>, ids: set<nat>)
    requires OpsFit(g) && |g.fair.tasks| == |g.fair.status|
    requires forall i :: i in Holding(g, scope) ==> i in f && f[i] in ids && g.ops[i].task == Some(f[i])
    requires forall id :: id in ids ==> exists i :: i in Holding(g, scope) && i in f && f[i] == id
    ensures |Holding(g, scope)| <= |ids| <= FQ.Tally(MeasureOf(scope), g.fair.tasks, g.fair.status)
  {
    var holding, m := Holding(g, scope), MeasureOf(scope);
    forall i, j | i in holding && j in holding && i != j ensures f[i] != f[j] {
      assert if i < j then g.ops[i].task != g.ops[j].task else g.ops[j].task != g.ops[i].task;
    }
    InjectionSize(holding, ids, f);
    forall id | id in ids ensures id < |g.fair.tasks| && FQ.Weigh(m, g.fair.tasks[id], g.fair.status[id]) >= 1 {
      var i :| i in holding && i in f && f[i] == id;
      assert Coherent(g.fair, g.serial, g.ops[i]);
    }
    FewerThanTally(m, g.fair.tasks, g.fair.status, ids);
  }

  /** At most `maxGlobalActive` operations are past the fair queue at any time, and at most
      `maxConnectionActive` of any one connection; those sending are among them. */
  lemma SlotsAreCapped(c: Config, g: State, scope: Option<string>)
    requires Inv(c, g)
    ensures |Holding(g, scope)| <= if scope.Some? then c.limits.maxConnectionActive else c.limits.maxGlobalActive
    ensures forall i :: 0 <= i < |g.ops| && g.ops[i].inner.Sending? && InScope(scope, g.ops[i]) ==>
                          i in Holding(g, scope)
  {
    var holding := Holding(g, scope);
    var f := map i | i in holding :: TaskOf(g, i);
    var ids := set i | i in holding :: f[i];
    HeldTasks(g, scope, f, ids);
    if scope.Some? {
      assert FQ.ActiveOf(g.fair, scope.value) <= c.limits.maxConnectionActive;
    }
  }

  /** A repeated delivery joins the operation already open for its key; there is never a second one. */
  lemma Coalesced(c: Config, g: State, i: nat, key: string, event: Event, valid: bool)
    requires Inv(c, g) && i < |g.ops| && !g.ops[i].outer.Closed? && g.ops[i].inFlightKey == key
    ensures Arrive(g, key, event, valid) == g
    ensures forall j :: 0 <= j < |g.ops| && j != i && g.ops[j].inFlightKey == key ==> g.ops[j].outer.Closed?
  {
    assert g.inFlight[g.ops[i].inFlightKey] == i;
  }
}
