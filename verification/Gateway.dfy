/**
  `RyanAiGateway.handle` of bot-gateway/src/gateway.ts: in-flight coalescing, the replay ledger, the fair
  queue, the keyed queue and the transport, composed. Every `await` ends a step, so operations interleave
  in every possible way.
 */
module Gateway {
  import opened Wrappers
  import FQ = FairQueue
  import FO = FairQueueOperations
  import opened FairQueueMoves
  import KQ = KeyedQueue
  import Ledger

  datatype Config = Config(limits: FQ.Limits, serial: KQ.Config, ledger: Ledger.Config)

  /** What `validateEvent` passes on: the replay key and the two queue keys. */
  datatype Event = Event(key: Ledger.Key, connectionId: string, conversation: string, bytes: nat)

  /** Where `handleSafely` stands. */
  datatype Outer = Claiming | Entering | Awaiting | Refusing | Returning | Closed

  /** The ledger call that ends `handleClaimedSerial`. */
  datatype Write = Complete(reply: Ledger.Reply) | Release

  /** Where the task handed to the fair queue stands. */
  datatype Inner = Idle | InLine | Handling | Sending | Writing(write: Write) | Leaving | Finishing | Done {
    predicate HasTurn() {
      Handling? || Sending? || Writing? || Leaving?
    }

    predicate HoldsSlot() {
      InLine? || HasTurn() || Finishing?
    }
  }

  /** One call of `handleSafely`; `task` and `entry` are its places in the two queues. */
  datatype Operation = Operation(
    inFlightKey: string, event: Event, outer: Outer, inner: Inner,
    task: Option<nat>, entry: Option<nat>, claimed: bool, sent: bool)

  datatype State = State(
    fair: FQ.State, serial: KQ.State, table: Ledger.Table, ops: seq<Operation>, inFlight: map<string, nat>)

  /** A process start: queues empty, the table as the last process left it. */
  predicate Starting(g: State) {
    g.fair == FQ.INITIAL && g.serial == KQ.INITIAL && g.ops == [] && g.inFlight == map[]
  }

  datatype Outcome = Answered(reply: Ledger.Reply) | RetryableError

  datatype Step =
    | Handle(key: string, event: Event, valid: bool)
    | Claim(i: nat, now: int)
    | Enter(i: nat)                    // fairQueue.run
    | Begin(i: nat)                    // the fair queue starts the task, which calls serialQueue.run
    | TakeTurn(i: nat)
    | MissTurn(i: nat)                 // queue_wait_timeout
    | Ignore(i: nat, reply: Ledger.Reply)
    | Send(i: nat)
    | Answer(i: nat, outcome: Outcome)
    | Fail(i: nat)                     // a state call rejects inside the task
    | Record(i: nat, now: int)         // completeEvent or releaseEvent
    | Leave(i: nat)                    // the keyed queue's finally
    | Finish(i: nat)                   // the fair queue's finally
    | Resume(i: nat)                   // fairQueue.run settles
    | Refuse(i: nat, reply: Ledger.Reply, now: int)
    | GiveUp(i: nat)                   // claimEvent or the refusal's completeEvent rejects
    | Close(i: nat)
    | Queue(op: FO.Operation)          // timers and shutdown
    | Purge(now: int)
    | Delete(keys: set<Ledger.Key>)    // deleteConnection

  /** The steps that only move one operation along, and perhaps write to the ledger. */
  predicate IsLocal(step: Step) {
    step.Claim? || step.Ignore? || step.Send? || step.Answer? || step.Fail? || step.Record? || step.Resume?
    || step.Refuse? || step.GiveUp?
  }

  predicate LocalEnabled(g: State, step: Step, op: Operation)
    requires IsLocal(step)
  {
    match step
    case Claim(_, _) => op.outer.Claiming?
    case Ignore(_, _) => op.inner.Handling?
    case Send(_) => op.inner.Handling?
    case Answer(_, _) => op.inner.Sending?
    case Fail(_) => op.inner.Handling? || op.inner.Writing?
    case Record(_, _) => op.inner.Writing?
    case Resume(_) => op.outer.Awaiting? && StatusOf(g.fair, op).IsSettled()
    case Refuse(_, _, _) => op.outer.Refusing?
    case GiveUp(_) => op.outer.Claiming? || op.outer.Refusing?
  }

  ghost predicate Enabled(c: Config, g: State, step: Step)
    requires Sound(g)
  {
    match step
    case Handle(_, _, _) => true
    case Enter(i) => i < |g.ops| && g.ops[i].outer.Entering?
    case Begin(i) => i < |g.ops| && g.ops[i].inner.Idle? && StatusOf(g.fair, g.ops[i]).Active?
    case TakeTurn(i) =>
      i < |g.ops| && g.ops[i].inner.InLine? && KQ.Enabled(c.serial, g.serial, KQ.StartStep(EntryOf(g, i)))
    case MissTurn(i) =>
      i < |g.ops| && g.ops[i].inner.InLine? && KQ.Enabled(c.serial, g.serial, KQ.TimeOutStep(EntryOf(g, i)))
    case Leave(i) => i < |g.ops| && g.ops[i].inner.Leaving?
    case Finish(i) => i < |g.ops| && g.ops[i].inner.Finishing?
    case Close(i) => i < |g.ops| && g.ops[i].outer.Returning?
    case Queue(op) => !op.Run? && !op.Complete? && FO.Possible(g.fair, op)
    case Purge(_) => true
    case Delete(_) => true
    case _ => step.i < |g.ops| && LocalEnabled(g, step, g.ops[step.i])
  }

  /** The status of the operation's task; before it has one, as if it still waited. */
  function StatusOf(fair: FQ.State, op: Operation): FQ.Status {
    if op.task.Some? && op.task.value < |fair.status| then fair.status[op.task.value] else FQ.Queued
  }

  ghost function EntryOf(g: State, i: nat): (e: nat)
    requires OpsFit(g) && i < |g.ops| && (g.ops[i].inner.InLine? || g.ops[i].inner.HasTurn())
    ensures g.ops[i].entry == Some(e) && e < |g.serial.links| == |g.serial.phases|
  {
    assert Coherent(g.fair, g.serial, g.ops[i]);
    g.ops[i].entry.value
  }

  ghost function TaskOf(g: State, i: nat): (t: nat)
    requires OpsFit(g) && i < |g.ops| && g.ops[i].inner.HoldsSlot()
    ensures g.ops[i].task == Some(t) && t < |g.fair.tasks| == |g.fair.status| && g.fair.status[t].Active?
  {
    assert Coherent(g.fair, g.serial, g.ops[i]);
    g.ops[i].task.value
  }

  // ----- What always holds -----

  /** The queue turned the task away before it started. */
  predicate TurnedAway(status: FQ.Status) {
    status.Rejected? || status.Expired? || status.Cancelled?
  }

  predicate StatusFits(status: FQ.Status, op: Operation) {
    && (op.inner.Idle? ==> !status.Finished?)
    && (op.inner.HoldsSlot() ==> status.Active?)
    && (op.inner.Done? ==> status.Finished?)
    && (op.outer.Refusing? ==> TurnedAway(status))
    && (op.outer.Returning? || op.outer.Closed? ==> status.IsSettled())
  }

  predicate TaskFits(fair: FQ.State, op: Operation) {
    match op.task
    case None => op.inner.Idle? && !op.outer.Awaiting? && !op.outer.Refusing?
    case Some(t) => op.claimed && !op.outer.Claiming? && !op.outer.Entering? &&
                    t < |fair.status| == |fair.tasks| && StatusFits(fair.status[t], op) &&
                    fair.tasks[t] == FQ.Task(t, op.event.connectionId, op.event.bytes)
  }

  predicate EntryFits(serial: KQ.State, op: Operation) {
    match op.entry
    case None => !op.inner.InLine? && !op.inner.HasTurn()
    case Some(e) => e < |serial.links| == |serial.phases| && serial.links[e].key == op.event.conversation &&
                    !op.inner.Idle? &&
                    (op.inner.InLine? ==> serial.phases[e].Waiting?) &&
                    (op.inner.HasTurn() ==> serial.phases[e].Running?)
  }

  predicate FlagsFit(op: Operation) {
    && (op.outer.Claiming? ==> !op.claimed)
    && (op.outer.Entering? ==> op.claimed)
    && (op.sent ==> op.claimed && !op.inner.Idle? && !op.inner.InLine? && !op.inner.Handling?)
    && (op.inner.Sending? ==> op.sent)
  }

  predicate Coherent(fair: FQ.State, serial: KQ.State, op: Operation) {
    TaskFits(fair, op) && EntryFits(serial, op) && FlagsFit(op)
  }

  ghost predicate Distinct(ops: seq<Operation>) {
    && (forall i, j :: 0 <= i < j < |ops| && ops[i].task.Some? ==> ops[i].task != ops[j].task)
    && (forall i, j :: 0 <= i < j < |ops| && ops[i].entry.Some? ==> ops[i].entry != ops[j].entry)
  }

  /** The map holds exactly the operations still open, each under its own key. */
  ghost predicate Tracked(ops: seq<Operation>, inFlight: map<string, nat>) {
    && (forall i :: 0 <= i < |ops| && !ops[i].outer.Closed? ==>
          ops[i].inFlightKey in inFlight && inFlight[ops[i].inFlightKey] == i)
    && (forall key :: key in inFlight ==>
          inFlight[key] < |ops| && ops[inFlight[key]].inFlightKey == key && !ops[inFlight[key]].outer.Closed?)
  }

  ghost predicate OpsFit(g: State) {
    && (forall i :: 0 <= i < |g.ops| ==> Coherent(g.fair, g.serial, g.ops[i]))
    && Distinct(g.ops)
    && Tracked(g.ops, g.inFlight)
  }

  /** As much as the steps need to make sense. */
  ghost predicate Sound(g: State) {
    OpsFit(g) && FQ.Recorded(g.fair) && |g.serial.links| == |g.serial.phases| && KQ.Linked(g.serial.links)
  }

  ghost predicate Inv(c: Config, g: State) {
    FQ.Inv(c.limits, g.fair) && KQ.Inv(c.serial, g.serial) && Sound(g)
  }

  // ----- The steps -----

  function Put(g: State, i: nat, op: Operation): State
    requires i < |g.ops|
  {
    g.(ops := g.ops[i := op])
  }

  function Arrive(g: State, key: string, event: Event, valid: bool): State {
    if key in g.inFlight then g
    else
      g.(ops := g.ops + [Operation(key, event, if valid then Claiming else Returning, Idle, None, None, false, false)],
         inFlight := g.inFlight[key := |g.ops|])
  }

  function Written(c: Config, t: Ledger.Table, key: Ledger.Key, write: Write, now: int): Ledger.Table {
    match write
    case Complete(reply) => Ledger.CompleteEvent(c.ledger, t, key, reply, now)
    case Release => Ledger.ReleaseEvent(t, key)
  }

  function Closing(g: State, i: nat, op: Operation): State
    requires i < |g.ops|
  {
    var g' := Put(g, i, op.(outer := Closed));
    if op.inFlightKey in g.inFlight && g.inFlight[op.inFlightKey] == i
    then g'.(inFlight := g.inFlight - {op.inFlightKey})
    else g'
  }

  /** `serialQueue.run` up to its first await; a full key throws. */
  function Lining(c: Config, g: State, i: nat, op: Operation): State
    requires i < |g.ops|
  {
    if KQ.Admits(c.serial, g.serial, op.event.conversation)
    then Put(g, i, op.(inner := InLine, entry := Some(|g.serial.links|))).(
           serial := KQ.Enter(c.serial, g.serial, op.event.conversation))
    else Put(g, i, op.(inner := Finishing))
  }

  function LocalOp(g: State, step: Step, op: Operation): Operation
    requires IsLocal(step)
  {
    match step
    case Claim(_, now) =>
      if Ledger.ClaimResult(g.table, op.event.key, now).New? then op.(outer := Entering, claimed := true)
      else op.(outer := Returning)
    case Ignore(_, reply) => op.(inner := Writing(Complete(reply)))
    case Send(_) => op.(inner := Sending, sent := true)
    case Answer(_, outcome) => op.(inner := Writing(if outcome.Answered? then Complete(outcome.reply) else Release))
    case Fail(_) => op.(inner := Leaving)
    case Record(_, _) => op.(inner := Leaving)
    case Resume(_) => op.(outer := if TurnedAway(StatusOf(g.fair, op)) then Refusing else Returning)
    case Refuse(_, _, _) => op.(outer := Returning)
    case GiveUp(_) => op.(outer := Returning)
  }

  function LocalTable(c: Config, t: Ledger.Table, step: Step, op: Operation): Ledger.Table
    requires IsLocal(step)
  {
    match step
    case Claim(_, now) => Ledger.ClaimEvent(c.ledger, t, op.event.key, now)
    case Record(_, now) => if op.inner.Writing? then Written(c, t, op.event.key, op.inner.write, now) else t
    case Refuse(_, reply, now) => Ledger.CompleteEvent(c.ledger, t, op.event.key, reply, now)
    case _ => t
  }

  /** What the step asks of the fair queue. */
  ghost function FairAfter(c: Config, g: State, step: Step): FQ.State
    requires Inv(c, g) && Enabled(c, g, step)
  {
    match step
    case Enter(i) => FO.Execute(c.limits, g.fair, FO.Run(g.ops[i].event.connectionId, g.ops[i].event.bytes))
    case Finish(i) => FO.Execute(c.limits, g.fair, FO.Complete(TaskOf(g, i)))
    case Queue(op) => FO.Execute(c.limits, g.fair, op)
    case _ => g.fair
  }

  /** Everything else the step does. */
  ghost function Next(c: Config, g: State, step: Step, fair': FQ.State): State
    requires Sound(g) && Enabled(c, g, step)
  {
    match step
    case Handle(key, event, valid) => Arrive(g, key, event, valid)
    case Enter(i) => Put(g, i, g.ops[i].(outer := Awaiting, task := Some(|g.fair.tasks|))).(fair := fair')
    case Begin(i) => Lining(c, g, i, g.ops[i])
    case TakeTurn(i) => Put(g, i, g.ops[i].(inner := Handling)).(serial := KQ.Start(g.serial, EntryOf(g, i)))
    case MissTurn(i) => Put(g, i, g.ops[i].(inner := Finishing)).(serial := KQ.Leave(g.serial, EntryOf(g, i)))
    case Leave(i) => Put(g, i, g.ops[i].(inner := Finishing)).(serial := KQ.Leave(g.serial, EntryOf(g, i)))
    case Finish(i) => Put(g, i, g.ops[i].(inner := Done)).(fair := fair')
    case Close(i) => Closing(g, i, g.ops[i])
    case Queue(op) => g.(fair := fair')
    case Purge(now) => g.(table := Ledger.Purge(g.table, now))
    case Delete(keys) => g.(table := g.table - keys)
    case _ => Put(g, step.i, LocalOp(g, step, g.ops[step.i])).(table := LocalTable(c, g.table, step, g.ops[step.i]))
  }

  ghost function Apply(c: Config, g: State, step: Step): State
    requires Inv(c, g) && Enabled(c, g, step)
  {
    Next(c, g, step, FairAfter(c, g, step))
  }
}
