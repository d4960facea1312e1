/** Every step of the gateway keeps its operations, its two queues and its in-flight map in agreement. */
module GatewayInvariant {
  import opened Wrappers
  import FQ = FairQueue
  import FO = FairQueueOperations
  import opened FairQueueMoves
  import KQ = KeyedQueue
  import Ledger
  import opened Gateway

  /** An operation not touched by the step stays coherent when the queues move on around it. */
  lemma Untouched(
    fair: FQ.State, fair': FQ.State, serial: KQ.State, serial': KQ.State, completed: Option<nat>, op: Operation)
    requires Coherent(fair, serial, op) && Moves(fair, fair', completed) && SerialMoves(serial, serial', op.entry)
    requires op.task.Some? ==> op.task != completed
    ensures Coherent(fair', serial', op)
  {
    if op.task.Some? {
      assert MovesAt(fair, fair', completed, op.task.value);
    }
  }

  /** The entry keeps its place and its phase. */
  predicate SerialMoves(serial: KQ.State, serial': KQ.State, entry: Option<nat>) {
    && |serial.links| == |serial.phases| <= |serial'.links| == |serial'.phases|
    && (entry.Some? && entry.value < |serial.links| ==>
          && serial'.links[entry.value] == serial.links[entry.value]
          && serial'.phases[entry.value] == serial.phases[entry.value])
  }

  lemma Replaced(g: State, g': State, i: nat, op: Operation, completed: Option<nat>)
    requires OpsFit(g) && i < |g.ops| && g'.ops == g.ops[i := op]
    requires op.inFlightKey == g.ops[i].inFlightKey && g'.inFlight == g.inFlight
    requires !op.outer.Closed? && !g.ops[i].outer.Closed?
    requires Moves(g.fair, g'.fair, completed)
    requires forall j | 0 <= j < |g.ops| && j != i ::
               SerialMoves(g.serial, g'.serial, g.ops[j].entry) && (g.ops[j].task.Some? ==> g.ops[j].task != completed)
    requires Coherent(g'.fair, g'.serial, op)
    requires op.task == g.ops[i].task || op.task == Some(|g.fair.tasks|)
    requires op.entry == g.ops[i].entry || op.entry == Some(|g.serial.links|)
    ensures OpsFit(g')
  {
    forall j | 0 <= j < |g'.ops| ensures Coherent(g'.fair, g'.serial, g'.ops[j]) {
      if j != i {
        assert Coherent(g.fair, g.serial, g.ops[j]);
        Untouched(g.fair, g'.fair, g.serial, g'.serial, completed, g.ops[j]);
      }
    }
    ReplacedDistinct(g, i, op);
  }

  lemma ReplacedDistinct(g: State, i: nat, op: Operation)
    requires Distinct(g.ops) && i < |g.ops| && forall j :: 0 <= j < |g.ops| ==> Coherent(g.fair, g.serial, g.ops[j])
    requires op.task == g.ops[i].task || op.task == Some(|g.fair.tasks|)
    requires op.entry == g.ops[i].entry || op.entry == Some(|g.serial.links|)
    ensures Distinct(g.ops[i := op])
  {
    forall j | 0 <= j < |g.ops|
      ensures g.ops[j].task != Some(|g.fair.tasks|) && g.ops[j].entry != Some(|g.serial.links|)
    {
      assert Coherent(g.fair, g.serial, g.ops[j]);
    }
  }

  /** A step that changes nothing but the ledger and one operation. */
  lemma LocalFits(c: Config, g: State, g': State, i: nat, op: Operation)
    requires Inv(c, g) && i < |g.ops| && g'.ops == g.ops[i := op]
    requires g'.fair == g.fair && g'.serial == g.serial && g'.inFlight == g.inFlight
    requires op.inFlightKey == g.ops[i].inFlightKey && !op.outer.Closed? && !g.ops[i].outer.Closed?
    requires op.task == g.ops[i].task && op.entry == g.ops[i].entry && Coherent(g.fair, g.serial, op)
    ensures Inv(c, g')
  {
    StillMoves(g.fair, g.fair);
    Replaced(g, g', i, op, None);
  }

  lemma ArriveFits(g: State, key: string, event: Event, valid: bool)
    requires OpsFit(g)
    ensures OpsFit(Arrive(g, key, event, valid))
  {
    if key !in g.inFlight {
      var g' := Arrive(g, key, event, valid);
      forall i | 0 <= i < |g'.ops| ensures Coherent(g'.fair, g'.serial, g'.ops[i]) {
        assert i < |g.ops| ==> g'.ops[i] == g.ops[i] && Coherent(g.fair, g.serial, g.ops[i]);
      }
      ArriveTracked(g.ops, g.inFlight, g'.ops[|g.ops|]);
    }
  }

  lemma ArriveTracked(ops: seq<Operation>, inFlight: map<string, nat>, op: Operation)
    requires Distinct(ops) && Tracked(ops, inFlight) && op.inFlightKey !in inFlight && !op.outer.Closed?
    requires op.task.None? && op.entry.None?
    ensures Distinct(ops + [op]) && Tracked(ops + [op], inFlight[op.inFlightKey := |ops|])
  {
  }

  lemma CloseFits(g: State, i: nat)
    requires OpsFit(g) && i < |g.ops| && g.ops[i].outer.Returning?
    ensures OpsFit(Closing(g, i, g.ops[i]))
  {
    var g' := Closing(g, i, g.ops[i]);
    forall j | 0 <= j < |g'.ops| ensures Coherent(g'.fair, g'.serial, g'.ops[j]) {
      assert Coherent(g.fair, g.serial, g.ops[j]);
    }
  }

  lemma EnterFits(g: State, g': State, i: nat)
    requires OpsFit(g) && i < |g.ops| && g.ops[i].outer.Entering?
    requires g' == Put(g, i, g.ops[i].(outer := Awaiting, task := Some(|g.fair.tasks|))).(fair := g'.fair)
    requires Moves(g.fair, g'.fair, None) && |g'.fair.tasks| == |g.fair.tasks| + 1
    requires |g.serial.links| == |g.serial.phases|
    requires g'.fair.tasks[|g.fair.tasks|] ==
             FQ.Task(|g.fair.tasks|, g.ops[i].event.connectionId, g.ops[i].event.bytes)
    requires !g'.fair.status[|g.fair.tasks|].Finished?
    ensures OpsFit(g')
  {
    assert Coherent(g.fair, g.serial, g.ops[i]);
    Replaced(g, g', i, g'.ops[i], None);
  }

  lemma FinishFits(g: State, g': State, i: nat)
    requires OpsFit(g) && i < |g.ops| && g.ops[i].inner.Finishing? && g.ops[i].task.Some?
    requires g' == Put(g, i, g.ops[i].(inner := Done)).(fair := g'.fair)
    requires Moves(g.fair, g'.fair, g.ops[i].task) && |g.serial.links| == |g.serial.phases|
    requires g.ops[i].task.value < |g'.fair.status| && g'.fair.status[g.ops[i].task.value].Finished?
    ensures OpsFit(g')
  {
    var op := g.ops[i];
    assert Coherent(g.fair, g.serial, op);
    assert MovesAt(g.fair, g'.fair, op.task, op.task.value);
    forall j | 0 <= j < |g.ops| && j != i ensures g.ops[j].task.Some? ==> g.ops[j].task != op.task {
      assert if i < j then g.ops[i].task != g.ops[j].task else g.ops[j].task.Some? ==> g.ops[j].task != g.ops[i].task;
    }
    Replaced(g, g', i, g'.ops[i], op.task);
  }

  lemma QueueFits(g: State, g': State)
    requires OpsFit(g) && g' == g.(fair := g'.fair) && Moves(g.fair, g'.fair, None)
    requires |g.serial.links| == |g.serial.phases|
    ensures OpsFit(g')
  {
    forall i | 0 <= i < |g.ops| ensures Coherent(g'.fair, g'.serial, g'.ops[i]) {
      assert Coherent(g.fair, g.serial, g.ops[i]);
      Untouched(g.fair, g'.fair, g.serial, g'.serial, None, g.ops[i]);
    }
  }

  /** One operation moves in the keyed queue: the other operations' entries stay put. */
  lemma SerialFits(g: State, g': State, i: nat, op: Operation)
    requires OpsFit(g) && i < |g.ops| && g' == Put(g, i, op).(serial := g'.serial)
    requires FQ.Recorded(g.fair)
    requires |g.serial.links| == |g.serial.phases| <= |g'.serial.links| == |g'.serial.phases|
    requires op.inFlightKey == g.ops[i].inFlightKey && !op.outer.Closed? && !g.ops[i].outer.Closed?
    requires op.task == g.ops[i].task && Coherent(g.fair, g'.serial, op)
    requires op.entry == g.ops[i].entry || op.entry == Some(|g.serial.links|)
    requires forall e :: 0 <= e < |g.serial.links| && Some(e) != op.entry ==>
                           g'.serial.links[e] == g.serial.links[e] && g'.serial.phases[e] == g.serial.phases[e]
    ensures OpsFit(g')
  {
    StillMoves(g.fair, g.fair);
    forall j | 0 <= j < |g.ops| && j != i ensures SerialMoves(g.serial, g'.serial, g.ops[j].entry) {
      assert Coherent(g.fair, g.serial, g.ops[j]);
      assert g.ops[j].entry.Some? ==> g.ops[j].entry != g.ops[i].entry by {
        assert if i < j then g.ops[i].entry.Some? ==> g.ops[i].entry != g.ops[j].entry
               else g.ops[j].entry.Some? ==> g.ops[j].entry != g.ops[i].entry;
      }
    }
    Replaced(g, g', i, op, None);
  }

  lemma LiningKeeps(c: Config, g: State, i: nat)
    requires Inv(c, g) && i < |g.ops| && g.ops[i].inner.Idle? && StatusOf(g.fair, g.ops[i]).Active?
    ensures Inv(c, Lining(c, g, i, g.ops[i]))
  {
    var op, g' := g.ops[i], Lining(c, g, i, g.ops[i]);
    assert Coherent(g.fair, g.serial, op);
    if KQ.Admits(c.serial, g.serial, op.event.conversation) {
      KQ.EnterKeeps(c.serial, g.serial, op.event.conversation);
      SerialFits(g, g', i, g'.ops[i]);
    } else {
      LocalFits(c, g, g', i, g'.ops[i]);
    }
  }

  lemma TakeTurnKeeps(c: Config, g: State, i: nat, e: nat)
    requires Inv(c, g) && i < |g.ops| && g.ops[i].inner.InLine? && g.ops[i].entry == Some(e)
    requires e < |g.serial.phases|
    ensures Inv(c, Put(g, i, g.ops[i].(inner := Handling)).(serial := KQ.Start(g.serial, e)))
  {
    assert Coherent(g.fair, g.serial, g.ops[i]);
    KQ.StartKeeps(c.serial, g.serial, e);
    var g' := Put(g, i, g.ops[i].(inner := Handling)).(serial := KQ.Start(g.serial, e));
    SerialFits(g, g', i, g'.ops[i]);
  }

  /** The end of a turn, and the end of waiting for one. */
  lemma LeaveKeeps(c: Config, g: State, i: nat, e: nat)
    requires Inv(c, g) && i < |g.ops| && g.ops[i].entry == Some(e)
    requires g.ops[i].inner.InLine? || g.ops[i].inner.Leaving?
    requires e < |g.serial.phases|
    ensures Inv(c, Put(g, i, g.ops[i].(inner := Finishing)).(serial := KQ.Leave(g.serial, e)))
  {
    assert Coherent(g.fair, g.serial, g.ops[i]);
    KQ.LeaveKeeps(c.serial, g.serial, e);
    var g' := Put(g, i, g.ops[i].(inner := Finishing)).(serial := KQ.Leave(g.serial, e));
    SerialFits(g, g', i, g'.ops[i]);
  }

  lemma LocalCoherent(g: State, step: Step, op: Operation)
    requires IsLocal(step) && LocalEnabled(g, step, op) && Coherent(g.fair, g.serial, op)
    ensures Coherent(g.fair, g.serial, LocalOp(g, step, op))
    ensures !op.outer.Closed? && !LocalOp(g, step, op).outer.Closed?
  {
  }

  lemma LocalStepKeeps(c: Config, g: State, step: Step)
    requires Inv(c, g) && IsLocal(step) && step.i < |g.ops| && LocalEnabled(g, step, g.ops[step.i])
    ensures Inv(c, Put(g, step.i, LocalOp(g, step, g.ops[step.i])).(
                     table := LocalTable(c, g.table, step, g.ops[step.i])))
  {
    var op, op' := g.ops[step.i], LocalOp(g, step, g.ops[step.i]);
    assert Coherent(g.fair, g.serial, op);
    LocalCoherent(g, step, op);
    LocalFits(c, g, Put(g, step.i, op').(table := LocalTable(c, g.table, step, op)), step.i, op');
  }

  lemma EnterKeeps(c: Config, g: State, i: nat)
    requires Inv(c, g) && i < |g.ops| && g.ops[i].outer.Entering?
    ensures Inv(c, Apply(c, g, Enter(i)))
  {
    var event := g.ops[i].event;
    ExecuteMoves(c.limits, g.fair, FO.Run(event.connectionId, event.bytes));
    EnterFits(g, Apply(c, g, Enter(i)), i);
  }

  lemma FinishKeeps(c: Config, g: State, i: nat)
    requires Inv(c, g) && i < |g.ops| && g.ops[i].inner.Finishing?
    ensures Inv(c, Apply(c, g, Finish(i)))
  {
    ExecuteMoves(c.limits, g.fair, FO.Complete(TaskOf(g, i)));
    FinishFits(g, Apply(c, g, Finish(i)), i);
  }

  lemma QueueKeeps(c: Config, g: State, op: FO.Operation)
    requires Inv(c, g) && Enabled(c, g, Queue(op))
    ensures Inv(c, Apply(c, g, Queue(op)))
  {
    ExecuteMoves(c.limits, g.fair, op);
    QueueFits(g, Apply(c, g, Queue(op)));
  }

  lemma LedgerOnly(c: Config, g: State, t: Ledger.Table)
    requires Inv(c, g)
    ensures Inv(c, g.(table := t))
  {
  }

  lemma KeyedStepKeeps(c: Config, g: State, step: Step)
    requires Inv(c, g) && (step.Begin? || step.TakeTurn? || step.MissTurn? || step.Leave?) && Enabled(c, g, step)
    ensures Inv(c, Apply(c, g, step))
  {
    match step
    case Begin(i) => LiningKeeps(c, g, i);
    case TakeTurn(i) => TakeTurnKeeps(c, g, i, EntryOf(g, i));
    case MissTurn(i) => LeaveKeeps(c, g, i, EntryOf(g, i));
    case Leave(i) => LeaveKeeps(c, g, i, EntryOf(g, i));
  }

  lemma FairStepKeeps(c: Config, g: State, step: Step)
    requires Inv(c, g) && (step.Enter? || step.Finish? || step.Queue?) && Enabled(c, g, step)
    ensures Inv(c, Apply(c, g, step))
  {
    match step
    case Enter(i) => EnterKeeps(c, g, i);
    case Finish(i) => FinishKeeps(c, g, i);
    case Queue(op) => QueueKeeps(c, g, op);
  }

  lemma ApplyKeeps(c: Config, g: State, step: Step)
    requires Inv(c, g) && Enabled(c, g, step)
    ensures Inv(c, Apply(c, g, step))
  {
    if step.Enter? || step.Finish? || step.Queue? {
      FairStepKeeps(c, g, step);
    } else if step.Begin? || step.TakeTurn? || step.MissTurn? || step.Leave? {
      KeyedStepKeeps(c, g, step);
    } else if IsLocal(step) {
      LocalStepKeeps(c, g, step);
    } else {
      OtherStepKeeps(c, g, step);
    }
  }

  lemma OtherStepKeeps(c: Config, g: State, step: Step)
    requires Inv(c, g) && (step.Handle? || step.Close? || step.Purge? || step.Delete?) && Enabled(c, g, step)
    ensures Inv(c, Apply(c, g, step))
  {
    match step
    case Handle(key, event, valid) => ArriveFits(g, key, event, valid);
    case Close(i) => CloseFits(g, i);
    case Purge(_) => LedgerOnly(c, g, Apply(c, g, step).table);
    case Delete(_) => LedgerOnly(c, g, Apply(c, g, step).table);
  }
}
