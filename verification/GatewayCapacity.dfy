/** When a conversation's queue can be full: its open entries are operations that hold slots of the fair queue. */
module GatewayCapacity {
  import opened Wrappers
  import FQ = FairQueue
  import KQ = KeyedQueue
  import opened Gateway
  import opened GatewayInvariant
  import opened GatewayRuns
  import opened GatewaySafety
  import opened GatewayClaims

  // ----- Every open entry belongs to an operation -----

  predicate InQueue(inner: Inner) {
    inner.InLine? || inner.HasTurn()
  }

  predicate Owns(ops: seq<Operation>, j: nat, e: nat) {
    j < |ops| && ops[j].entry == Some(e) && InQueue(ops[j].inner)
  }

  ghost predicate HasOwner(ops: seq<Operation>, e: nat) {
    exists j :: Owns(ops, j, e)
  }

  ghost predicate Owned(ops: seq<Operation>, phases: seq<KQ.Phase>) {
    forall e {:trigger HasOwner(ops, e)} :: 0 <= e < |phases| && !phases[e].Left? ==> HasOwner(ops, e)
  }

  /** Operations that own entries go on owning them. */
  ghost predicate KeepsOwners(ops: seq<Operation>, ops': seq<Operation>) {
    forall j, e :: Owns(ops, j, e) ==> Owns(ops', j, e)
  }

  lemma StillOwned(ops: seq<Operation>, ops': seq<Operation>, phases: seq<KQ.Phase>)
    requires Owned(ops, phases) && KeepsOwners(ops, ops')
    ensures Owned(ops', phases)
  {
    forall e | 0 <= e < |phases| && !phases[e].Left? ensures HasOwner(ops', e) {
      assert HasOwner(ops, e);
      var j :| Owns(ops, j, e);
      assert Owns(ops', j, e);
    }
  }

  lemma LocalKeepsOwner(g: State, step: Step, op: Operation)
    requires IsLocal(step) && LocalEnabled(g, step, op) && Coherent(g.fair, g.serial, op)
    ensures LocalOp(g, step, op).entry == op.entry
    ensures InQueue(op.inner) ==> InQueue(LocalOp(g, step, op).inner)
  {
  }

  lemma LocalStepOwned(c: Config, g: State, step: Step, fair': FQ.State)
    requires Sound(g) && IsLocal(step) && Enabled(c, g, step)
    ensures KeepsOwners(g.ops, Next(c, g, step, fair').ops)
  {
    LocalStepAfter(c, g, step, fair');
    assert Coherent(g.fair, g.serial, g.ops[step.i]);
    LocalKeepsOwner(g, step, g.ops[step.i]);
  }

  lemma FairStepOwned(c: Config, g: State, step: Step, fair': FQ.State)
    requires Sound(g) && (step.Enter? || step.Finish? || step.Close?) && Enabled(c, g, step)
    ensures KeepsOwners(g.ops, Next(c, g, step, fair').ops) && Next(c, g, step, fair').serial == g.serial
  {
    assert Coherent(g.fair, g.serial, g.ops[step.i]);
  }

  lemma WholeStepOwned(c: Config, g: State, step: Step, fair': FQ.State)
    requires Sound(g) && (step.Handle? || step.Queue? || step.Purge? || step.Delete?) && Enabled(c, g, step)
    ensures KeepsOwners(g.ops, Next(c, g, step, fair').ops) && Next(c, g, step, fair').serial == g.serial
  {
  }

  lemma LocalKeepsSerial(c: Config, g: State, step: Step, fair': FQ.State)
    requires Sound(g) && IsLocal(step) && Enabled(c, g, step)
    ensures Next(c, g, step, fair').serial == g.serial
  {
  }

  /** One operation enters, moves or leaves; the entry of the others are untouched. */
  lemma OneMoved(ops: seq<Operation>, phases: seq<KQ.Phase>, i: nat, op: Operation, phases': seq<KQ.Phase>)
    requires Owned(ops, phases) && i < |ops| && |phases| <= |phases'|
    requires forall e :: 0 <= e < |phases| && Some(e) != op.entry ==> phases'[e] == phases[e]
    requires forall e :: 0 <= e < |phases'| && Some(e) != op.entry && ops[i].entry == Some(e) ==> phases'[e].Left?
    requires |phases| < |phases'| ==> |phases'| == |phases| + 1 && op.entry == Some(|phases|)
    requires InQueue(ops[i].inner) ==> ops[i].entry == op.entry
    requires op.entry.Some? && op.entry.value < |phases'| && !phases'[op.entry.value].Left? ==> InQueue(op.inner)
    ensures Owned(ops[i := op], phases')
  {
    var ops' := ops[i := op];
    forall e | 0 <= e < |phases'| && !phases'[e].Left? ensures HasOwner(ops', e) {
      if op.entry == Some(e) {
        assert Owns(ops', i, e);
      } else {
        assert HasOwner(ops, e);
        var j :| Owns(ops, j, e);
        assert j != i;
        assert Owns(ops', j, e);
      }
    }
  }

  lemma BeginOwned(c: Config, g: State, i: nat, fair': FQ.State)
    requires Sound(g) && Enabled(c, g, Begin(i)) && Owned(g.ops, g.serial.phases)
    ensures var g' := Next(c, g, Begin(i), fair'); Owned(g'.ops, g'.serial.phases)
  {
    var g', op := Next(c, g, Begin(i), fair'), g.ops[i];
    assert Coherent(g.fair, g.serial, op);
    if KQ.Admits(c.serial, g.serial, op.event.conversation) {
      OneMoved(g.ops, g.serial.phases, i, g'.ops[i], g'.serial.phases);
    } else {
      assert !InQueue(op.inner);
      StillOwned(g.ops, g'.ops, g.serial.phases);
    }
  }

  lemma TurnOwned(c: Config, g: State, step: Step, fair': FQ.State)
    requires Sound(g) && (step.TakeTurn? || step.MissTurn? || step.Leave?) && Enabled(c, g, step)
    requires Owned(g.ops, g.serial.phases)
    ensures var g' := Next(c, g, step, fair'); Owned(g'.ops, g'.serial.phases)
  {
    var g', i := Next(c, g, step, fair'), step.i;
    assert Coherent(g.fair, g.serial, g.ops[i]);
    OneMoved(g.ops, g.serial.phases, i, g'.ops[i], g'.serial.phases);
  }

  lemma StepOwned(c: Config, g: State, step: Step, fair': FQ.State)
    requires Sound(g) && Enabled(c, g, step) && Owned(g.ops, g.serial.phases)
    ensures var g' := Next(c, g, step, fair'); Owned(g'.ops, g'.serial.phases)
  {
    var ops' := Next(c, g, step, fair').ops;
    if step.Begin? {
      BeginOwned(c, g, step.i, fair');
    } else if step.TakeTurn? || step.MissTurn? || step.Leave? {
      TurnOwned(c, g, step, fair');
    } else {
      if IsLocal(step) {
        LocalStepOwned(c, g, step, fair');
        LocalKeepsSerial(c, g, step, fair');
      } else if step.Enter? || step.Finish? || step.Close? {
        FairStepOwned(c, g, step, fair');
      } else {
        WholeStepOwned(c, g, step, fair');
      }
      StillOwned(g.ops, ops', g.serial.phases);
    }
  }

  ghost predicate OwnedStep(states: seq<State>, m: nat)
    requires m + 1 < |states|
  {
    Owned(states[m].ops, states[m].serial.phases) ==> Owned(states[m + 1].ops, states[m + 1].serial.phases)
  }

  lemma OwnedAt(c: Config, states: seq<State>, steps: seq<Step>, m: nat)
    requires |states| == |steps| + 1 && m < |steps| && FollowsAt(c, states, steps, m)
    ensures OwnedStep(states, m)
  {
    if Owned(states[m].ops, states[m].serial.phases) {
      StepOwned(c, states[m], steps[m], FairAfter(c, states[m], steps[m]));
    }
  }

  lemma {:induction false} OwnedFrom(states: seq<State>, n: nat)
    requires n < |states| && Owned(states[0].ops, states[0].serial.phases)
    requires forall m {:trigger OwnedStep(states, m)} :: 0 <= m < |states| - 1 ==> OwnedStep(states, m)
    ensures Owned(states[n].ops, states[n].serial.phases)
  {
    if n > 0 {
      OwnedFrom(states, n - 1);
      assert OwnedStep(states, n - 1);
    }
  }

  lemma RunOwned(c: Config, states: seq<State>, steps: seq<Step>, n: nat)
    requires IsRun(c, states, steps) && Starting(states[0]) && n < |states|
    ensures Owned(states[n].ops, states[n].serial.phases)
  {
    forall m | 0 <= m < |states| - 1 ensures OwnedStep(states, m) {
      OwnedAt(c, states, steps, m);
    }
    OwnedFrom(states, n);
  }

  // ----- Counting slots -----

  ghost function OpenSet(links: seq<KQ.Link>, phases: seq<KQ.Phase>, key: string): set<nat>
    requires |links| == |phases|
  {
    set e | 0 <= e < |links| && links[e].key == key && !phases[e].Left?
  }

  lemma {:induction false} OpenSetSize(links: seq<KQ.Link>, phases: seq<KQ.Phase>, key: string)
    requires |links| == |phases|
    ensures |OpenSet(links, phases, key)| == KQ.Open(links, phases, key)
  {
    if links == [] {
      assert OpenSet(links, phases, key) == {};
    } else {
      var last := |links| - 1;
      OpenSetSize(links[..last], phases[..last], key);
      var before, after := OpenSet(links[..last], phases[..last], key), OpenSet(links, phases, key);
      if links[last].key == key && !phases[last].Left? {
        assert after == before + {last};
      } else {
        assert after == before;
      }
    }
  }

  ghost function OwnerOf(ops: seq<Operation>, e: nat): (j: nat)
    requires HasOwner(ops, e)
    ensures Owns(ops, j, e)
  {
    var j :| Owns(ops, j, e);
    j
  }

  /** Events of one conversation come over one connection, as `conversationKey` is built. */
  ghost predicate OneConnection(ops: seq<Operation>) {
    forall i, j :: 0 <= i < |ops| && 0 <= j < |ops| && ops[i].event.conversation == ops[j].event.conversation ==>
                     ops[i].event.connectionId == ops[j].event.connectionId
  }

  /** The slot of the operation that owns an open entry. */
  lemma OwnersSlot(g: State, e: nat, key: string) returns (j: nat, t: nat)
    requires OpsFit(g) && Owned(g.ops, g.serial.phases) && |g.serial.links| == |g.serial.phases|
    requires e in OpenSet(g.serial.links, g.serial.phases, key)
    ensures HasOwner(g.ops, e) && j == OwnerOf(g.ops, e) && j < |g.ops| && g.ops[j].event.conversation == key
    ensures g.ops[j].task == Some(t) && t < |g.fair.tasks| == |g.fair.status| && g.fair.status[t].Active?
    ensures g.fair.tasks[t].connectionId == g.ops[j].event.connectionId
  {
    assert HasOwner(g.ops, e);
    j := OwnerOf(g.ops, e);
    assert Coherent(g.fair, g.serial, g.ops[j]);
    t := TaskOf(g, j);
  }

  /** The measure of a scope counts the task. */
  predicate Counts(scope: Option<string>, task: FQ.Task, status: FQ.Status) {
    status.Active? && (scope.Some? ==> task.connectionId == scope.value)
  }

  /** The open entries of a conversation and one more operation that holds a slot fit into the slots. */
  lemma EntriesFit(g: State, key: string, i: nat, ti: nat, scope: Option<string>)
    requires OpsFit(g) && Owned(g.ops, g.serial.phases) && |g.serial.links| == |g.serial.phases|
    requires |g.fair.tasks| == |g.fair.status| && i < |g.ops| && g.ops[i].task == Some(ti) && !InQueue(g.ops[i].inner)
    requires ti < |g.fair.tasks| && Counts(scope, g.fair.tasks[ti], g.fair.status[ti])
    requires scope.Some? ==> forall j :: 0 <= j < |g.ops| && g.ops[j].event.conversation == key ==>
                                           g.ops[j].event.connectionId == scope.value
    ensures KQ.Open(g.serial.links, g.serial.phases, key) + 1
         <= FQ.Tally(MeasureOf(scope), g.fair.tasks, g.fair.status)
  {
    OpenSetSize(g.serial.links, g.serial.phases, key);
    var f := SlotMap(g, key);
    SlotsDiffer(g, key, f, i, ti);
    SlotsWeigh(g, key, f, scope);
    OneMoreSlot(MeasureOf(scope), g.fair.tasks, g.fair.status, f, ti);
  }

  /** The task weighs at least one. */
  predicate Weighs(m: FQ.Measure, tasks: seq<FQ.Task>, status: seq<FQ.Status>, id: nat) {
    id < |tasks| == |status| && FQ.Weigh(m, tasks[id], status[id]) >= 1
  }

  lemma SlotsWeigh(g: State, key: string, f: map<nat, nat>, scope: Option<string>)
    requires OpsFit(g) && Owned(g.ops, g.serial.phases) && |g.serial.links| == |g.serial.phases|
    requires f == SlotMap(g, key)
    requires scope.Some? ==> forall j :: 0 <= j < |g.ops| && g.ops[j].event.conversation == key ==>
                                           g.ops[j].event.connectionId == scope.value
    ensures forall e :: e in f ==> Weighs(MeasureOf(scope), g.fair.tasks, g.fair.status, f[e])
  {
    forall e | e in f ensures Weighs(MeasureOf(scope), g.fair.tasks, g.fair.status, f[e]) {
      var j, t := OwnersSlot(g, e, key);
    }
  }

  lemma OneMoreSlot(m: FQ.Measure, tasks: seq<FQ.Task>, status: seq<FQ.Status>, f: map<nat, nat>, ti: nat)
    requires |tasks| == |status| && Weighs(m, tasks, status, ti)
    requires forall e :: e in f ==> Weighs(m, tasks, status, f[e]) && f[e] != ti
    requires forall d, e :: d in f && e in f && d != e ==> f[d] != f[e]
    ensures |f.Keys| + 1 <= FQ.Tally(m, tasks, status)
  {
    var others := set e | e in f :: f[e];
    InjectionSize(f.Keys, others, f);
    var ids := others + {ti};
    assert |ids| == |others| + 1;
    forall id | id in ids ensures Weighs(m, tasks, status, id) {
    }
    FewerThanTally(m, tasks, status, ids);
  }

  /** The task of the owner of each open entry. */
  ghost function SlotMap(g: State, key: string): (f: map<nat, nat>)
    requires OpsFit(g) && Owned(g.ops, g.serial.phases) && |g.serial.links| == |g.serial.phases|
    ensures f.Keys == OpenSet(g.serial.links, g.serial.phases, key)
    ensures forall e :: e in f ==> HasOwner(g.ops, e) && g.ops[OwnerOf(g.ops, e)].task == Some(f[e])
  {
    map e | e in OpenSet(g.serial.links, g.serial.phases, key) ::
      assert HasOwner(g.ops, e);
      TaskOf(g, OwnerOf(g.ops, e))
  }

  lemma SlotsDiffer(g: State, key: string, f: map<nat, nat>, i: nat, ti: nat)
    requires OpsFit(g) && i < |g.ops| && g.ops[i].task == Some(ti) && !InQueue(g.ops[i].inner)
    requires forall e :: e in f ==> HasOwner(g.ops, e) && g.ops[OwnerOf(g.ops, e)].task == Some(f[e])
    ensures forall d, e :: d in f && e in f && d != e ==> f[d] != f[e]
    ensures forall e :: e in f ==> f[e] != ti
  {
    forall d, e | d in f && e in f && d != e ensures f[d] != f[e] {
      var j, k := OwnerOf(g.ops, d), OwnerOf(g.ops, e);
      DistinctTasks(g.ops, j, k);
    }
    forall e | e in f ensures f[e] != ti {
      DistinctTasks(g.ops, OwnerOf(g.ops, e), i);
    }
  }

  lemma DistinctTasks(ops: seq<Operation>, j: nat, k: nat)
    requires Distinct(ops) && j < |ops| && k < |ops| && j != k && ops[j].task.Some? && ops[k].task.Some?
    ensures ops[j].task != ops[k].task
  {
    assert if j < k then ops[j].task != ops[k].task else ops[k].task != ops[j].task;
  }

  // ----- Which configurations never find a conversation full -----

  /** The slots, in all or of one connection, are no more than the entries a conversation may have. */
  predicate SlotsFitDepth(c: Config) {
    c.limits.maxGlobalActive <= c.serial.maxDepthPerKey || c.limits.maxConnectionActive <= c.serial.maxDepthPerKey
  }

  lemma BeginFits(c: Config, g: State, i: nat)
    requires Inv(c, g) && Enabled(c, g, Begin(i)) && Owned(g.ops, g.serial.phases) && OneConnection(g.ops)
    requires SlotsFitDepth(c)
    ensures KQ.Admits(c.serial, g.serial, g.ops[i].event.conversation)
  {
    var op := g.ops[i];
    assert Coherent(g.fair, g.serial, op);
    var key, ti := op.event.conversation, op.task.value;
    var scope := if c.limits.maxGlobalActive <= c.serial.maxDepthPerKey then None else Some(op.event.connectionId);
    EntriesFit(g, key, i, ti, scope);
    ScopeIsCapped(c.limits, g.fair, scope);
    DepthIsOpen(c.serial, g.serial, key);
  }

  lemma ScopeIsCapped(l: FQ.Limits, s: FQ.State, scope: Option<string>)
    requires FQ.Inv(l, s)
    ensures FQ.Tally(MeasureOf(scope), s.tasks, s.status)
         <= if scope.Some? then l.maxConnectionActive else l.maxGlobalActive
  {
    if scope.Some? {
      assert FQ.ActiveOf(s, scope.value) <= l.maxConnectionActive;
    }
  }

  lemma DepthIsOpen(c: KQ.Config, s: KQ.State, key: string)
    requires KQ.Inv(c, s)
    ensures KQ.DepthOf(s, key) == KQ.Open(s.links, s.phases, key)
  {
  }

  /** Step `m` finds the conversation of operation `i` full. */
  ghost predicate FindsFullAt(c: Config, states: seq<State>, steps: seq<Step>, m: nat, i: nat) {
    && IsRun(c, states, steps) && Starting(states[0]) && m < |steps| && steps[m] == Begin(i) && i < |states[m].ops|
    && OneConnection(states[m].ops)
    && !KQ.Admits(c.serial, states[m].serial, states[m].ops[i].event.conversation)
  }

  /** If the slots fit, no run ever finds a conversation full. */
  lemma NeverFull(c: Config, states: seq<State>, steps: seq<Step>, m: nat, i: nat)
    requires SlotsFitDepth(c)
    ensures !FindsFullAt(c, states, steps, m, i)
  {
    if FindsFullAt(c, states, steps, m, i) {
      RunOwned(c, states, steps, m);
      assert FollowsAt(c, states, steps, m);
      BeginFits(c, states[m], i);
    }
  }

  /** If moreover waiting is not limited, a claim is lost only to a failing state call. */
  lemma OnlyFailuresLoseClaims(c: Config, states: seq<State>, steps: seq<Step>, m: nat, i: nat)
    requires IsRun(c, states, steps) && Starting(states[0]) && m < |steps| && OneConnection(states[m].ops)
    requires SlotsFitDepth(c) && c.serial.maxWaitMs <= 0 && LosesClaim(c, states[m], steps[m], i)
    ensures steps[m] == Fail(i) || steps[m] == GiveUp(i)
  {
    NeverFull(c, states, steps, m, i);
    NoMissWithoutLimit(c, states, steps, m, i);
  }

  lemma NoMissWithoutLimit(c: Config, states: seq<State>, steps: seq<Step>, m: nat, i: nat)
    requires IsRun(c, states, steps) && m < |steps| && c.serial.maxWaitMs <= 0
    ensures steps[m] != MissTurn(i)
  {
    assert FollowsAt(c, states, steps, m);
  }
}
