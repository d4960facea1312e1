/** What later deliveries of an event get, over whole runs of the gateway. */
module GatewayReplies {
  import opened Wrappers
  import Ledger
  import opened Gateway
  import opened GatewayInvariant
  import opened GatewayRuns
  import opened GatewaySafety

  /** The clock reading a step passes to the ledger. */
  function TimeOf(step: Step): Option<int> {
    if step.Claim? || step.Record? || step.Refuse? || step.Purge? then Some(step.now) else None
  }

  ghost predicate TimesInOrder(steps: seq<Step>) {
    forall a, b :: 0 <= a <= b < |steps| && TimeOf(steps[a]).Some? && TimeOf(steps[b]).Some? ==>
                     TimeOf(steps[a]).value <= TimeOf(steps[b]).value
  }

  predicate Deletes(step: Step, key: Ledger.Key) {
    step.Delete? && key in step.keys
  }

  /** The reply in force after a step, given the one before it: completions replace it. */
  function ReplyAfter(ops: seq<Operation>, step: Step, key: Ledger.Key, reply: Ledger.Reply): Ledger.Reply {
    if !(step.Record? || step.Refuse?) || step.i >= |ops| || ops[step.i].event.key != key then reply
    else if step.Refuse? then step.reply
    else if ops[step.i].inner.Writing? && ops[step.i].inner.write.Complete? then ops[step.i].inner.write.reply
    else reply
  }

  /** The last reply completed for `key` before step `q`, given the one in force at `n`. */
  function LastReply(
    states: seq<State>, steps: seq<Step>, n: nat, q: nat, key: Ledger.Key, reply: Ledger.Reply): Ledger.Reply
    requires q <= |steps| <= |states|
  {
    if q <= n then reply
    else ReplyAfter(states[q - 1].ops, steps[q - 1], key, LastReply(states, steps, n, q - 1, key, reply))
  }

  predicate HoldsReply(t: Ledger.Table, key: Ledger.Key, reply: Ledger.Reply, until: int) {
    key in t && t[key].progress == Ledger.Completed(Some(reply)) && t[key].expiresAt >= until
  }

  lemma ReplyStays(c: Config, t: Ledger.Table, ops: seq<Operation>, step: Step, key: Ledger.Key, reply: Ledger.Reply,
                   until: int)
    requires HoldsReply(t, key, reply, until) && !Deletes(step, key) && (IsLocal(step) ==> step.i < |ops|)
    requires TimeOf(step).Some? ==> TimeOf(step).value < until <= TimeOf(step).value + c.ledger.replayTtlMs
    ensures HoldsReply(TableAfter(c, t, ops, step), key, ReplyAfter(ops, step, key, reply), until)
  {
    if step.Claim? {
      ClaimKeeps(c, t, ops[step.i].event.key, step.now, key, reply, until);
    }
  }

  lemma ClaimKeeps(c: Config, t: Ledger.Table, claimed: Ledger.Key, now: int, key: Ledger.Key, reply: Ledger.Reply,
                   until: int)
    requires HoldsReply(t, key, reply, until) && now < until
    ensures HoldsReply(Ledger.ClaimEvent(c.ledger, t, claimed, now), key, reply, until)
  {
    Ledger.LiveReplyAnswers(t, key, now, reply);
  }

  /** Step `m` changes the table as `TableAfter` says. */
  ghost predicate TableStep(c: Config, states: seq<State>, steps: seq<Step>, m: nat)
    requires m < |steps| && |states| == |steps| + 1
  {
    && (IsLocal(steps[m]) ==> steps[m].i < |states[m].ops|)
    && states[m + 1].table == TableAfter(c, states[m].table, states[m].ops, steps[m])
  }

  lemma StepsTable(c: Config, states: seq<State>, steps: seq<Step>, m: nat)
    requires |states| == |steps| + 1 && m < |steps| && FollowsAt(c, states, steps, m)
    ensures TableStep(c, states, steps, m)
  {
    NextTable(c, states[m], steps[m], FairAfter(c, states[m], steps[m]));
  }

  /** From step `n` up to `q` the tables follow, the key is not deleted, and clock readings are in range. */
  ghost predicate Calm(c: Config, states: seq<State>, steps: seq<Step>, n: nat, q: nat, key: Ledger.Key, until: int) {
    && q <= |steps| && |states| == |steps| + 1
    && (forall m {:trigger CalmAt(c, states, steps, m, key, until)} :: n <= m < q ==>
          CalmAt(c, states, steps, m, key, until))
  }

  ghost predicate CalmAt(c: Config, states: seq<State>, steps: seq<Step>, m: nat, key: Ledger.Key, until: int)
    requires m < |steps| && |states| == |steps| + 1
  {
    && TableStep(c, states, steps, m) && !Deletes(steps[m], key)
    && (TimeOf(steps[m]).Some? ==> TimeOf(steps[m]).value < until <= TimeOf(steps[m]).value + c.ledger.replayTtlMs)
  }

  lemma {:induction false} ReplyLasts(c: Config, states: seq<State>, steps: seq<Step>, n: nat, q: nat, key: Ledger.Key,
                                      reply: Ledger.Reply, until: int)
    requires n <= q && Calm(c, states, steps, n, q, key, until) && HoldsReply(states[n].table, key, reply, until)
    ensures HoldsReply(states[q].table, key, LastReply(states, steps, n, q, key, reply), until)
    decreases q - n
  {
    if n < q {
      ReplyLasts(c, states, steps, n, q - 1, key, reply, until);
      assert CalmAt(c, states, steps, q - 1, key, until);
      ReplyStays(c, states[q - 1].table, states[q - 1].ops, steps[q - 1], key,
                 LastReply(states, steps, n, q - 1, key, reply), until);
    }
  }

  ghost predicate NotDeleted(steps: seq<Step>, n: nat, q: nat, key: Ledger.Key)
    requires q <= |steps|
  {
    forall m :: n <= m < q ==> !Deletes(steps[m], key)
  }

  lemma IsCalm(c: Config, states: seq<State>, steps: seq<Step>, n: nat, q: nat, key: Ledger.Key)
    requires IsRun(c, states, steps) && TimesInOrder(steps) && n < q < |steps| && NotDeleted(steps, n, q, key)
    requires TimeOf(steps[n]).Some? && TimeOf(steps[q]).Some?
    requires TimeOf(steps[q]).value < TimeOf(steps[n]).value + c.ledger.replayTtlMs
    ensures Calm(c, states, steps, n + 1, q, key, TimeOf(steps[n]).value + c.ledger.replayTtlMs)
  {
    var until := TimeOf(steps[n]).value + c.ledger.replayTtlMs;
    forall m | n + 1 <= m < q ensures CalmAt(c, states, steps, m, key, until) {
      StepsTable(c, states, steps, m);
      assert !Deletes(steps[m], key);
      if TimeOf(steps[m]).Some? {
        assert TimeOf(steps[n]).value <= TimeOf(steps[m]).value <= TimeOf(steps[q]).value;
      }
    }
  }

  lemma RecordHolds(c: Config, t: Ledger.Table, key: Ledger.Key, reply: Ledger.Reply, now: int)
    requires key in t
    ensures HoldsReply(Written(c, t, key, Complete(reply), now), key, reply, now + c.ledger.replayTtlMs)
  {
  }

  /** The write of operation `i`, once it is decided. */
  lemma RecordsDecision(c: Config, states: seq<State>, steps: seq<Step>, m: nat, n: nat, i: nat, write: Write)
    requires IsRun(c, states, steps) && m < n < |steps|
    requires DecidesWrite(steps[m], i, write) && steps[n].Record? && steps[n].i == i
    ensures i < |states[n].ops|
    ensures states[n + 1].table == Written(c, states[n].table, states[n].ops[i].event.key, write, steps[n].now)
  {
    DecisionMarks(c, states, steps, m, i, write);
    RunIsLater(c, states, steps, m + 1, n);
    RecordWrites(c, states, steps, n, i);
    assert Later(states[m + 1].ops[i], states[n].ops[i]);
  }

  /** A reply in the table after step `n` is what later claims get, until another is completed. */
  lemma HeldReplyIsReplayed(c: Config, states: seq<State>, steps: seq<Step>, n: nat, q: nat, key: Ledger.Key,
                            reply: Ledger.Reply)
    requires IsRun(c, states, steps) && TimesInOrder(steps) && n < q < |steps| && NotDeleted(steps, n, q, key)
    requires TimeOf(steps[n]).Some? && steps[q].Claim?
    requires HoldsReply(states[n + 1].table, key, reply, TimeOf(steps[n]).value + c.ledger.replayTtlMs)
    requires steps[q].now < TimeOf(steps[n]).value + c.ledger.replayTtlMs
    ensures Ledger.ClaimResult(states[q].table, key, steps[q].now)
         == Ledger.Replay(LastReply(states, steps, n + 1, q, key, reply))
  {
    var until := TimeOf(steps[n]).value + c.ledger.replayTtlMs;
    IsCalm(c, states, steps, n, q, key);
    ReplyLasts(c, states, steps, n + 1, q, key, reply, until);
    Ledger.LiveReplyAnswers(states[q].table, key, steps[q].now, LastReply(states, steps, n + 1, q, key, reply));
  }

  /**
    The reply to an event reaches every later delivery. After the transport answered operation `i`, or the event was
    found to need no answer, and the reply was recorded in a record still present, every later claim of that key
    before now + replayTtl, with clock readings in order and no deletion of the key, gets the last reply completed
    by then.
   */
  lemma AnswerIsReplayed(c: Config, states: seq<State>, steps: seq<Step>, m: nat, n: nat, q: nat, i: nat,
                         reply: Ledger.Reply)
    requires IsRun(c, states, steps) && TimesInOrder(steps) && m < n < q < |steps|
    requires steps[m] == Answer(i, Answered(reply)) || steps[m] == Ignore(i, reply)
    requires steps[n].Record? && steps[n].i == i && i < |states[n].ops|
    requires states[n].ops[i].event.key in states[n].table && NotDeleted(steps, n, q, states[n].ops[i].event.key)
    requires steps[q].Claim? && steps[q].now < steps[n].now + c.ledger.replayTtlMs
    ensures var key := states[n].ops[i].event.key;
            Ledger.ClaimResult(states[q].table, key, steps[q].now)
            == Ledger.Replay(LastReply(states, steps, n + 1, q, key, reply))
  {
    RecordsDecision(c, states, steps, m, n, i, Complete(reply));
    RecordHolds(c, states[n].table, states[n].ops[i].event.key, reply, steps[n].now);
    HeldReplyIsReplayed(c, states, steps, n, q, states[n].ops[i].event.key, reply);
  }

  /** So does the reply that refuses an event the fair queue turned away: it is not taken up again. */
  lemma RefusalIsReplayed(c: Config, states: seq<State>, steps: seq<Step>, n: nat, q: nat, i: nat,
                          reply: Ledger.Reply, now: int)
    requires IsRun(c, states, steps) && TimesInOrder(steps) && n < q < |steps| && steps[n] == Refuse(i, reply, now)
    requires i < |states[n].ops| && states[n].ops[i].event.key in states[n].table
    requires NotDeleted(steps, n, q, states[n].ops[i].event.key)
    requires steps[q].Claim? && steps[q].now < now + c.ledger.replayTtlMs
    ensures var key := states[n].ops[i].event.key;
            Ledger.ClaimResult(states[q].table, key, steps[q].now)
            == Ledger.Replay(LastReply(states, steps, n + 1, q, key, reply))
  {
    assert FollowsAt(c, states, steps, n);
    StepsTable(c, states, steps, n);
    HeldReplyIsReplayed(c, states, steps, n, q, states[n].ops[i].event.key, reply);
  }

  /** After a retryable error the release of a record still `processing` lets the next delivery start afresh. */
  lemma RetryStartsAfresh(c: Config, states: seq<State>, steps: seq<Step>, m: nat, n: nat, i: nat, later: int)
    requires IsRun(c, states, steps) && m < n < |steps| && steps[m] == Answer(i, RetryableError)
    requires steps[n].Record? && steps[n].i == i && i < |states[n].ops|
    requires Ledger.Releases(states[n].table, states[n].ops[i].event.key)
    ensures Ledger.ClaimResult(states[n + 1].table, states[n].ops[i].event.key, later) == Ledger.New
  {
    RecordsDecision(c, states, steps, m, n, i, Release);
  }
}
