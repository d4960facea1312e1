/** When a claimed event gets its entry in the ledger, exactly, and how it can be left without one. */
module GatewayClaims {
  import opened Wrappers
  import FQ = FairQueue
  import KQ = KeyedQueue
  import opened Gateway
  import opened GatewayInvariant
  import opened GatewayRuns
  import opened GatewaySafety

  /** The operation completes or releases its record. */
  predicate WritesFor(step: Step, i: nat) {
    (step.Record? || step.Refuse?) && step.i == i
  }

  /** The four ways to end without that: its turn does not come in time, its conversation's queue is full, a
      state call fails before or while it writes, or the refusal cannot be written. */
  predicate LosesClaim(c: Config, g: State, step: Step, i: nat) {
    || ((step.MissTurn? || step.Fail? || step.GiveUp?) && step.i == i)
    || (step == Begin(i) && i < |g.ops| && !KQ.Admits(c.serial, g.serial, g.ops[i].event.conversation))
  }

  /** The claim was answered `new`, or is still to be answered. */
  predicate Relevant(op: Operation) {
    op.claimed || op.outer.Claiming?
  }

  /** It is settled whether the operation writes to the ledger. */
  predicate Decided(op: Operation) {
    op.inner.Leaving? || op.inner.Finishing? || op.inner.Done? || op.outer.Returning? || op.outer.Closed?
  }

  /** One step of an operation: a write or a loss decides it, and nothing else does. */
  predicate Decides(op: Operation, op': Operation, writes: bool, loses: bool) {
    Relevant(op') ==>
      && Relevant(op) && !(writes && loses)
      && (if writes || loses then !Decided(op) && Decided(op') else Decided(op') == Decided(op))
  }

  lemma LocalDecides(c: Config, g: State, step: Step, i: nat)
    requires IsLocal(step) && step.i == i && i < |g.ops| && LocalEnabled(g, step, g.ops[i])
    requires Coherent(g.fair, g.serial, g.ops[i])
    ensures Decides(g.ops[i], LocalOp(g, step, g.ops[i]), WritesFor(step, i), LosesClaim(c, g, step, i))
  {
  }

  /** What `Decides` says of operation `i` and this step. */
  ghost predicate DecidesFor(c: Config, g: State, step: Step, ops': seq<Operation>, i: nat) {
    i < |g.ops| && i < |ops'| && Decides(g.ops[i], ops'[i], WritesFor(step, i), LosesClaim(c, g, step, i))
  }

  lemma BeginDecides(c: Config, g: State, i: nat, fair': FQ.State)
    requires Sound(g) && Enabled(c, g, Begin(i))
    ensures DecidesFor(c, g, Begin(i), Next(c, g, Begin(i), fair').ops, i)
  {
    assert Coherent(g.fair, g.serial, g.ops[i]);
  }

  lemma KeyedDecides(c: Config, g: State, step: Step, fair': FQ.State)
    requires Sound(g) && (step.Begin? || step.TakeTurn? || step.MissTurn? || step.Leave?) && Enabled(c, g, step)
    ensures DecidesFor(c, g, step, Next(c, g, step, fair').ops, step.i)
  {
    if step.Begin? {
      BeginDecides(c, g, step.i, fair');
    } else {
      TurnDecides(c, g, step, fair');
    }
  }

  lemma TurnDecides(c: Config, g: State, step: Step, fair': FQ.State)
    requires Sound(g) && (step.TakeTurn? || step.MissTurn? || step.Leave?) && Enabled(c, g, step)
    ensures DecidesFor(c, g, step, Next(c, g, step, fair').ops, step.i)
  {
    assert Coherent(g.fair, g.serial, g.ops[step.i]);
  }

  lemma FairDecides(c: Config, g: State, step: Step, fair': FQ.State)
    requires Sound(g) && (step.Enter? || step.Finish? || step.Close?) && Enabled(c, g, step)
    ensures DecidesFor(c, g, step, Next(c, g, step, fair').ops, step.i)
  {
    assert Coherent(g.fair, g.serial, g.ops[step.i]);
  }

  lemma LocalStepDecides(c: Config, g: State, step: Step, fair': FQ.State)
    requires Sound(g) && IsLocal(step) && Enabled(c, g, step)
    ensures DecidesFor(c, g, step, Next(c, g, step, fair').ops, step.i)
  {
    var i := step.i;
    LocalStepAfter(c, g, step, fair');
    assert Coherent(g.fair, g.serial, g.ops[i]);
    LocalDecides(c, g, step, i);
    PutDecides(c, g, step, i, LocalOp(g, step, g.ops[i]));
  }

  lemma PutDecides(c: Config, g: State, step: Step, i: nat, op: Operation)
    requires i < |g.ops| && Decides(g.ops[i], op, WritesFor(step, i), LosesClaim(c, g, step, i))
    ensures DecidesFor(c, g, step, g.ops[i := op], i)
  {
  }

  /** A step of one operation leaves the others alone. */
  lemma OthersUndecided(c: Config, g: State, step: Step, ops': seq<Operation>, i: nat)
    requires !step.Handle? && !step.Queue? && !step.Purge? && !step.Delete? && step.i != i && i < |g.ops| == |ops'|
    requires ops'[i] == g.ops[i]
    ensures DecidesFor(c, g, step, ops', i)
  {
  }

  lemma OneStepDecides(c: Config, g: State, step: Step, fair': FQ.State, i: nat)
    requires Sound(g) && Enabled(c, g, step) && i < |g.ops|
    requires !step.Handle? && !step.Queue? && !step.Purge? && !step.Delete?
    ensures DecidesFor(c, g, step, Next(c, g, step, fair').ops, i)
  {
    var ops' := Next(c, g, step, fair').ops;
    if step.i != i {
      if IsLocal(step) {
        LocalStepAfter(c, g, step, fair');
      } else {
        OneStepAfter(c, g, step, fair');
      }
      OthersUndecided(c, g, step, ops', i);
    } else if IsLocal(step) {
      LocalStepDecides(c, g, step, fair');
    } else if step.Enter? || step.Finish? || step.Close? {
      FairDecides(c, g, step, fair');
    } else {
      KeyedDecides(c, g, step, fair');
    }
  }

  lemma StepDecides(c: Config, g: State, step: Step, fair': FQ.State, i: nat)
    requires Sound(g) && Enabled(c, g, step) && i < |g.ops|
    ensures DecidesFor(c, g, step, Next(c, g, step, fair').ops, i)
  {
    if step.Handle? || step.Queue? || step.Purge? || step.Delete? {
      AppendedKeeps(c, g, step, fair', i);
    } else {
      OneStepDecides(c, g, step, fair', i);
    }
  }

  lemma AppendedKeeps(c: Config, g: State, step: Step, fair': FQ.State, i: nat)
    requires Sound(g) && Enabled(c, g, step) && i < |g.ops|
    requires step.Handle? || step.Queue? || step.Purge? || step.Delete?
    ensures i < |Next(c, g, step, fair').ops| && Next(c, g, step, fair').ops[i] == g.ops[i]
  {
  }

  /** An operation that is new begins undecided. */
  lemma NewIsUndecided(c: Config, g: State, step: Step, fair': FQ.State, i: nat)
    requires Sound(g) && Enabled(c, g, step) && |g.ops| <= i < |Next(c, g, step, fair').ops|
    ensures step.Handle? && (Relevant(Next(c, g, step, fair').ops[i]) ==> !Decided(Next(c, g, step, fair').ops[i]))
  {
    if IsLocal(step) {
      LocalStepAfter(c, g, step, fair');
    } else if !step.Handle? && !step.Queue? && !step.Purge? && !step.Delete? {
      OneStepAfter(c, g, step, fair');
    }
  }

  // ----- Over whole runs -----

  ghost predicate Wrote(steps: seq<Step>, n: nat, i: nat)
    requires n <= |steps|
  {
    exists m :: 0 <= m < n && WritesFor(steps[m], i)
  }

  ghost predicate Lost(c: Config, states: seq<State>, steps: seq<Step>, n: nat, i: nat)
    requires n <= |steps| <= |states|
  {
    exists m {:trigger LosesClaim(c, states[m], steps[m], i)} :: 0 <= m < n && LosesClaim(c, states[m], steps[m], i)
  }

  lemma OneMoreStep(c: Config, states: seq<State>, steps: seq<Step>, n: nat, i: nat)
    requires 0 < n <= |steps| <= |states|
    ensures Wrote(steps, n, i) <==> Wrote(steps, n - 1, i) || WritesFor(steps[n - 1], i)
    ensures Lost(c, states, steps, n, i)
       <==> Lost(c, states, steps, n - 1, i) || LosesClaim(c, states[n - 1], steps[n - 1], i)
  {
  }

  /** Where an operation stands tells what has happened to it. */
  ghost predicate Accounted(op: Operation, wrote: bool, lost: bool) {
    Relevant(op) ==> !(wrote && lost) && (Decided(op) <==> wrote || lost)
  }

  lemma AccountStep(op: Operation, op': Operation, wrote: bool, lost: bool, writes: bool, loses: bool)
    requires Accounted(op, wrote, lost) && Decides(op, op', writes, loses)
    ensures Accounted(op', wrote || writes, lost || loses)
  {
  }

  /** All there is to know about operation `i` and step `m`. */
  ghost predicate StepOk(c: Config, states: seq<State>, steps: seq<Step>, m: nat, i: nat)
    requires m < |steps| && |states| == |steps| + 1
  {
    if i < |states[m].ops| then DecidesFor(c, states[m], steps[m], states[m + 1].ops, i)
    else
      && !WritesFor(steps[m], i) && !LosesClaim(c, states[m], steps[m], i)
      && (i < |states[m + 1].ops| && Relevant(states[m + 1].ops[i]) ==> !Decided(states[m + 1].ops[i]))
  }

  lemma StepIsOk(c: Config, states: seq<State>, steps: seq<Step>, m: nat, i: nat)
    requires |states| == |steps| + 1 && m < |steps| && FollowsAt(c, states, steps, m)
    ensures StepOk(c, states, steps, m, i)
  {
    var g, step := states[m], steps[m];
    if i < |g.ops| {
      StepDecides(c, g, step, FairAfter(c, g, step), i);
    } else if i < |states[m + 1].ops| {
      NewIsUndecided(c, g, step, FairAfter(c, g, step), i);
    }
  }

  ghost predicate AllOk(c: Config, states: seq<State>, steps: seq<Step>, i: nat) {
    && |states| == |steps| + 1
    && forall m {:trigger StepOk(c, states, steps, m, i)} :: 0 <= m < |steps| ==> StepOk(c, states, steps, m, i)
  }

  lemma RunIsOk(c: Config, states: seq<State>, steps: seq<Step>, i: nat)
    requires IsRun(c, states, steps)
    ensures AllOk(c, states, steps, i)
  {
    forall m | 0 <= m < |steps| ensures StepOk(c, states, steps, m, i) {
      StepIsOk(c, states, steps, m, i);
    }
  }

  /** Before the operation exists nothing is written or lost; then its place accounts for it. */
  lemma {:induction false} RunAccounts(c: Config, states: seq<State>, steps: seq<Step>, n: nat, i: nat)
    requires AllOk(c, states, steps, i) && states[0].ops == [] && n <= |steps|
    ensures if i < |states[n].ops|
            then Accounted(states[n].ops[i], Wrote(steps, n, i), Lost(c, states, steps, n, i))
            else !Wrote(steps, n, i) && !Lost(c, states, steps, n, i)
  {
    if n > 0 {
      RunAccounts(c, states, steps, n - 1, i);
      assert StepOk(c, states, steps, n - 1, i);
      OneMoreStep(c, states, steps, n, i);
      if i < |states[n - 1].ops| {
        AccountStep(states[n - 1].ops[i], states[n].ops[i], Wrote(steps, n - 1, i), Lost(c, states, steps, n - 1, i),
                    WritesFor(steps[n - 1], i), LosesClaim(c, states[n - 1], steps[n - 1], i));
      }
    }
  }

  /**
    Exactly when a claim is written. For every run from a process start and every operation that claimed its
    event and has closed: it completed or released the record if and only if it neither missed its turn, nor
    found its conversation's queue full, nor ran into a failing state call.
   */
  lemma ClaimWrittenIff(c: Config, states: seq<State>, steps: seq<Step>, n: nat, i: nat)
    requires IsRun(c, states, steps) && Starting(states[0]) && n <= |steps| && i < |states[n].ops|
    requires states[n].ops[i].claimed && states[n].ops[i].outer.Closed?
    ensures Wrote(steps, n, i) <==> !Lost(c, states, steps, n, i)
  {
    RunIsOk(c, states, steps, i);
    RunAccounts(c, states, steps, n, i);
  }

  /** And never both, at any time: a claim once lost is not written any more, nor was it before. */
  lemma LostClaimStaysUnwritten(c: Config, states: seq<State>, steps: seq<Step>, n: nat, i: nat)
    requires IsRun(c, states, steps) && Starting(states[0]) && n <= |steps| && i < |states[n].ops|
    requires states[n].ops[i].claimed
    ensures !(Wrote(steps, n, i) && Lost(c, states, steps, n, i))
  {
    RunIsOk(c, states, steps, i);
    RunAccounts(c, states, steps, n, i);
  }
}
