/** Runs of the gateway: how often an event can reach the transport. */
module GatewayRuns {
  import opened Wrappers
  import FQ = FairQueue
  import FI = FairQueueInvariant
  import KQ = KeyedQueue
  import Ledger
  import opened Gateway
  import opened GatewayInvariant

  ghost predicate IsRun(c: Config, states: seq<State>, steps: seq<Step>) {
    && |states| == |steps| + 1
    && Inv(c, states[0])
    && forall n :: 0 <= n < |steps| ==> FollowsAt(c, states, steps, n)
  }

  ghost predicate FollowsAt(c: Config, states: seq<State>, steps: seq<Step>, n: nat)
    requires n < |steps| && |states| == |steps| + 1
  {
    Inv(c, states[n]) && Enabled(c, states[n], steps[n]) && states[n + 1] == Apply(c, states[n], steps[n])
  }

  lemma StartingHolds(c: Config, g: State)
    requires Starting(g)
    ensures Inv(c, g)
  {
    FI.InitialHolds(c.limits);
  }

  lemma RunKeepsInv(c: Config, states: seq<State>, steps: seq<Step>, n: nat)
    requires IsRun(c, states, steps) && n < |states|
    ensures Inv(c, states[n])
  {
    if n > 0 {
      assert FollowsAt(c, states, steps, n - 1);
      ApplyKeeps(c, states[n - 1], steps[n - 1]);
    }
  }

  // ----- What happens to one event key -----

  datatype Cause = Released | Expired | Deleted | Unreadable

  /** Why a step takes the record of `key` out of force; an unreadable one is overwritten. */
  function Loss(t: Ledger.Table, ops: seq<Operation>, step: Step, key: Ledger.Key): Option<Cause> {
    if key !in t then None
    else match step
      case Claim(i, now) =>
        if t[key].expiresAt <= now then Some(Expired)
        else if i < |ops| && ops[i].event.key == key && t[key].progress == Ledger.Completed(None) then Some(Unreadable)
        else None
      case Purge(now) => if t[key].expiresAt <= now then Some(Expired) else None
      case Delete(keys) => if key in keys then Some(Deleted) else None
      case Record(i, _) =>
        if i < |ops| && ops[i].event.key == key && ops[i].inner == Writing(Release) && t[key].progress.Processing?
        then Some(Released) else None
      case _ => None
  }

  datatype Happening =
    | SendOf(key: Ledger.Key)
    | ClaimOf(key: Ledger.Key)           // a claim answered `new`
    | RetryableErrorOf(key: Ledger.Key)
    | LossOf(key: Ledger.Key, cause: Cause)

  predicate Happens(g: State, step: Step, h: Happening) {
    match h
    case SendOf(key) => step.Send? && step.i < |g.ops| && g.ops[step.i].event.key == key
    case ClaimOf(key) => step.Claim? && step.i < |g.ops| && g.ops[step.i].event.key == key &&
                         Ledger.ClaimResult(g.table, key, step.now).New?
    case RetryableErrorOf(key) => step.Answer? && step.outcome.RetryableError? && step.i < |g.ops| &&
                                  g.ops[step.i].event.key == key
    case LossOf(key, cause) => Loss(g.table, g.ops, step, key) == Some(cause)
  }

  function One(b: bool): nat {
    if b then 1 else 0
  }

  /** How often `h` happens in the first `n` steps. */
  function Count(states: seq<State>, steps: seq<Step>, n: nat, h: Happening): nat
    requires n <= |steps| <= |states|
  {
    if n == 0 then 0 else Count(states, steps, n - 1, h) + One(Happens(states[n - 1], steps[n - 1], h))
  }

  // ----- Claims and records -----

  function TableAfter(c: Config, t: Ledger.Table, ops: seq<Operation>, step: Step): Ledger.Table {
    if step.Purge? then Ledger.Purge(t, step.now)
    else if step.Delete? then t - step.keys
    else if IsLocal(step) && step.i < |ops| then LocalTable(c, t, step, ops[step.i])
    else t
  }

  lemma NextTable(c: Config, g: State, step: Step, fair': FQ.State)
    requires Sound(g) && Enabled(c, g, step)
    ensures Next(c, g, step, fair').table == TableAfter(c, g.table, g.ops, step)
  {
    if IsLocal(step) {
      LocalTableAfter(c, g, step, fair');
    } else {
      OtherTableAfter(c, g, step, fair');
    }
  }

  lemma LocalTableAfter(c: Config, g: State, step: Step, fair': FQ.State)
    requires Sound(g) && IsLocal(step) && Enabled(c, g, step)
    ensures Next(c, g, step, fair').table == TableAfter(c, g.table, g.ops, step)
  {
    LocalStepAfter(c, g, step, fair');
  }

  lemma OtherTableAfter(c: Config, g: State, step: Step, fair': FQ.State)
    requires Sound(g) && !IsLocal(step) && Enabled(c, g, step)
    ensures Next(c, g, step, fair').table == TableAfter(c, g.table, g.ops, step)
  {
  }

  lemma FairStepAfter(c: Config, g: State, step: Step, fair': FQ.State)
    requires Sound(g) && (step.Enter? || step.Finish? || step.Queue?) && Enabled(c, g, step)
    ensures Next(c, g, step, fair').table == g.table
    ensures if step.Queue? then Next(c, g, step, fair').ops == g.ops
            else OneMoves(g.ops, Next(c, g, step, fair').ops, step.i)
  {
    if !step.Queue? {
      assert Coherent(g.fair, g.serial, g.ops[step.i]);
    }
  }

  lemma KeyedStepAfter(c: Config, g: State, step: Step, fair': FQ.State)
    requires Sound(g) && (step.Begin? || step.TakeTurn? || step.MissTurn? || step.Leave?) && Enabled(c, g, step)
    ensures Next(c, g, step, fair').table == g.table && OneMoves(g.ops, Next(c, g, step, fair').ops, step.i)
  {
  }

  /** The steps on one operation that are not local. */
  lemma OneStepAfter(c: Config, g: State, step: Step, fair': FQ.State)
    requires Sound(g) && Enabled(c, g, step)
    requires step.Enter? || step.Finish? || step.Close? || step.Begin?
             || step.TakeTurn? || step.MissTurn? || step.Leave?
    ensures OneMoves(g.ops, Next(c, g, step, fair').ops, step.i)
  {
    if step.Enter? || step.Finish? {
      FairStepAfter(c, g, step, fair');
    } else if step.Close? {
      CloseAfter(c, g, step.i, fair');
    } else {
      KeyedStepAfter(c, g, step, fair');
    }
  }

  lemma LocalStepAfter(c: Config, g: State, step: Step, fair': FQ.State)
    requires Sound(g) && IsLocal(step) && Enabled(c, g, step)
    ensures step.i < |g.ops| && Next(c, g, step, fair').ops == g.ops[step.i := LocalOp(g, step, g.ops[step.i])]
    ensures Next(c, g, step, fair').table == LocalTable(c, g.table, step, g.ops[step.i])
  {
  }

  lemma CloseAfter(c: Config, g: State, i: nat, fair': FQ.State)
    requires Sound(g) && Enabled(c, g, Close(i))
    ensures OneMoves(g.ops, Next(c, g, Close(i), fair').ops, i)
  {
  }

  function Rank(inner: Inner): nat {
    match inner
    case Idle => 0
    case InLine => 1
    case Handling => 2
    case Sending => 3
    case Writing(_) => 4
    case Leaving => 5
    case Finishing => 6
    case Done => 7
  }

  predicate Later(op: Operation, op': Operation) {
    && op'.event == op.event
    && (op.sent ==> op'.sent)
    && (op.task.Some? ==> op'.task == op.task)
    && Rank(op.inner) <= Rank(op'.inner)
    && (op.inner.Writing? && op'.inner.Writing? ==> op'.inner == op.inner)
  }

  ghost predicate AllLater(ops: seq<Operation>, ops': seq<Operation>) {
    |ops| <= |ops'| && forall i :: 0 <= i < |ops| ==> Later(ops[i], ops'[i])
  }

  /** One operation moves along, in a way that neither claims, sends nor decides on a ledger call. */
  predicate OneMoves(ops: seq<Operation>, ops': seq<Operation>, i: nat) {
    i < |ops| == |ops'| && ops' == ops[i := ops'[i]] &&
    SameCounts(ops[i], ops'[i]) && Later(ops[i], ops'[i])
  }

  predicate SameCounts(op: Operation, op': Operation) {
    op'.event == op.event && op'.claimed == op.claimed && op'.sent == op.sent &&
    (op'.inner == op.inner || (!op.inner.Writing? && !op'.inner.Writing?))
  }

  /** A record comes into force exactly by a `new` claim and goes out of force exactly by a loss. */
  lemma RecordBalance(c: Config, g: State, step: Step, key: Ledger.Key)
    requires IsLocal(step) ==> step.i < |g.ops|
    ensures One(key in g.table) + One(Happens(g, step, ClaimOf(key)))
         == One(key in TableAfter(c, g.table, g.ops, step)) + One(Loss(g.table, g.ops, step, key).Some?)
  {
    match step
    case Claim(i, now) => ClaimBalance(c, g.table, g.ops[i].event.key, now, key);
    case _ =>
  }

  lemma ClaimBalance(c: Config, t: Ledger.Table, claimed: Ledger.Key, now: int, key: Ledger.Key)
    ensures key in Ledger.ClaimEvent(c.ledger, t, claimed, now)
       <==> (key in t && t[key].expiresAt > now) || (key == claimed && Ledger.ClaimResult(t, key, now).New?)
    ensures key == claimed ==> (Ledger.ClaimResult(t, key, now).New?
              <==> key !in t || t[key].expiresAt <= now || t[key].progress == Ledger.Completed(None))
  {
  }

  function Losses(states: seq<State>, steps: seq<Step>, n: nat, key: Ledger.Key): nat
    requires n <= |steps| <= |states|
  {
    Count(states, steps, n, LossOf(key, Released)) + Count(states, steps, n, LossOf(key, Expired)) +
    Count(states, steps, n, LossOf(key, Deleted)) + Count(states, steps, n, LossOf(key, Unreadable))
  }

  lemma LossesAfter(states: seq<State>, steps: seq<Step>, n: nat, key: Ledger.Key)
    requires 0 < n <= |steps| <= |states|
    ensures Losses(states, steps, n, key)
         == Losses(states, steps, n - 1, key)
            + One(Loss(states[n - 1].table, states[n - 1].ops, steps[n - 1], key).Some?)
  {
    var g, step := states[n - 1], steps[n - 1];
    var loss := Loss(g.table, g.ops, step, key);
    assert forall cause :: Happens(g, step, LossOf(key, cause)) <==> loss == Some(cause);
  }

  /** Claims and losses of a key balance over every run: no claim is granted while a record is in force. */
  lemma {:induction false} ClaimsBalance(c: Config, states: seq<State>, steps: seq<Step>, n: nat, key: Ledger.Key)
    requires IsRun(c, states, steps) && n <= |steps|
    ensures One(key in states[0].table) + Count(states, steps, n, ClaimOf(key))
         == One(key in states[n].table) + Losses(states, steps, n, key)
  {
    if n > 0 {
      ClaimsBalance(c, states, steps, n - 1, key);
      assert FollowsAt(c, states, steps, n - 1);
      var g, step := states[n - 1], steps[n - 1];
      NextTable(c, g, step, FairAfter(c, g, step));
      RecordBalance(c, g, step, key);
      LossesAfter(states, steps, n, key);
    }
  }

  // ----- Sends and releases -----

  datatype Query = Unsent(key: Ledger.Key) | Releasing(key: Ledger.Key)

  predicate Matches(q: Query, op: Operation) {
    op.event.key == q.key && if q.Unsent? then op.claimed && !op.sent else op.inner == Writing(Release)
  }

  function Matching(q: Query, ops: seq<Operation>): nat {
    if ops == [] then 0 else Matching(q, ops[..|ops| - 1]) + One(Matches(q, ops[|ops| - 1]))
  }

  lemma MatchingPush(q: Query, ops: seq<Operation>, op: Operation)
    ensures Matching(q, ops + [op]) == Matching(q, ops) + One(Matches(q, op))
  {
    assert (ops + [op])[..|ops|] == ops;
  }

  lemma {:induction false} MatchingSet(q: Query, ops: seq<Operation>, i: nat, op: Operation)
    requires i < |ops|
    ensures Matching(q, ops[i := op]) == Matching(q, ops) - One(Matches(q, ops[i])) + One(Matches(q, op))
  {
    var last := |ops| - 1;
    if i == last {
      assert ops[i := op][..last] == ops[..last];
    } else {
      MatchingSet(q, ops[..last], i, op);
      assert ops[i := op][..last] == ops[..last][i := op];
    }
  }

  lemma SameMatching(q: Query, ops: seq<Operation>, ops': seq<Operation>, i: nat)
    requires OneMoves(ops, ops', i)
    ensures Matching(q, ops') == Matching(q, ops)
  {
    MatchingSet(q, ops, i, ops'[i]);
  }

  lemma HandleAfter(c: Config, g: State, step: Step, q: Query, fair': FQ.State)
    requires Sound(g) && step.Handle?
    ensures Matching(q, Next(c, g, step, fair').ops) == Matching(q, g.ops)
  {
    var g' := Next(c, g, step, fair');
    if step.key !in g.inFlight {
      MatchingPush(q, g.ops, g'.ops[|g.ops|]);
    }
  }

  /** Outside the local steps no operation starts or stops to match. */
  lemma OtherStepCounts(c: Config, g: State, step: Step, q: Query, fair': FQ.State)
    requires Sound(g) && Enabled(c, g, step) && !IsLocal(step)
    ensures Matching(q, Next(c, g, step, fair').ops) == Matching(q, g.ops)
  {
    if step.Handle? {
      HandleAfter(c, g, step, q, fair');
    } else if !step.Purge? && !step.Delete? && !step.Queue? {
      OneStepAfter(c, g, step, fair');
      SameMatching(q, g.ops, Next(c, g, step, fair').ops, step.i);
    }
  }

  /** What one local step does to the number of claimed but unsent operations of a key. */
  lemma UnsentAfter(g: State, step: Step, key: Ledger.Key)
    requires IsLocal(step) && step.i < |g.ops| && LocalEnabled(g, step, g.ops[step.i])
    requires Coherent(g.fair, g.serial, g.ops[step.i])
    ensures Matching(Unsent(key), g.ops[step.i := LocalOp(g, step, g.ops[step.i])]) + One(Happens(g, step, SendOf(key)))
         == Matching(Unsent(key), g.ops) + One(Happens(g, step, ClaimOf(key)))
  {
    MatchingSet(Unsent(key), g.ops, step.i, LocalOp(g, step, g.ops[step.i]));
  }

  /** And to the number of operations about to release it. */
  lemma ReleasingAfter(g: State, step: Step, key: Ledger.Key)
    requires IsLocal(step) && step.i < |g.ops| && LocalEnabled(g, step, g.ops[step.i])
    ensures Matching(Releasing(key), g.ops[step.i := LocalOp(g, step, g.ops[step.i])])
            + One(Happens(g, step, LossOf(key, Released)))
         <= Matching(Releasing(key), g.ops) + One(Happens(g, step, RetryableErrorOf(key)))
  {
    MatchingSet(Releasing(key), g.ops, step.i, LocalOp(g, step, g.ops[step.i]));
  }

  lemma SendStepCounts(c: Config, g: State, step: Step, key: Ledger.Key, fair': FQ.State)
    requires Sound(g) && Enabled(c, g, step)
    ensures var ops' := Next(c, g, step, fair').ops;
            && Matching(Unsent(key), ops') + One(Happens(g, step, SendOf(key)))
               == Matching(Unsent(key), g.ops) + One(Happens(g, step, ClaimOf(key)))
            && Matching(Releasing(key), ops') + One(Happens(g, step, LossOf(key, Released)))
               <= Matching(Releasing(key), g.ops) + One(Happens(g, step, RetryableErrorOf(key)))
  {
    if IsLocal(step) {
      LocalStepAfter(c, g, step, fair');
      assert Coherent(g.fair, g.serial, g.ops[step.i]);
      UnsentAfter(g, step, key);
      ReleasingAfter(g, step, key);
    } else {
      OtherStepCounts(c, g, step, Unsent(key), fair');
      OtherStepCounts(c, g, step, Releasing(key), fair');
    }
  }

  /** Every send uses up one `new` claim of its own, and every release follows a retryable error of its own. */
  lemma {:induction false} SendsNeedClaims(c: Config, states: seq<State>, steps: seq<Step>, n: nat, key: Ledger.Key)
    requires IsRun(c, states, steps) && states[0].ops == [] && n <= |steps|
    ensures Count(states, steps, n, SendOf(key)) + Matching(Unsent(key), states[n].ops)
         == Count(states, steps, n, ClaimOf(key))
    ensures Count(states, steps, n, LossOf(key, Released)) + Matching(Releasing(key), states[n].ops)
         <= Count(states, steps, n, RetryableErrorOf(key))
  {
    if n > 0 {
      SendsNeedClaims(c, states, steps, n - 1, key);
      assert FollowsAt(c, states, steps, n - 1);
      var g, step := states[n - 1], steps[n - 1];
      SendStepCounts(c, g, step, key, FairAfter(c, g, step));
    }
  }

  /**
    At most once. In every run from a process start, an event key reaches the transport at most once,
    plus once more for every retryable transport error and every time its record expired, was deleted
    with its connection or could not be read back; and one time fewer if a record was there at the start.
   */
  lemma AtMostOnce(c: Config, states: seq<State>, steps: seq<Step>, n: nat, key: Ledger.Key)
    requires IsRun(c, states, steps) && Starting(states[0]) && n <= |steps|
    ensures Count(states, steps, n, SendOf(key)) + One(key in states[0].table)
         <= 1 + Count(states, steps, n, RetryableErrorOf(key)) + Count(states, steps, n, LossOf(key, Expired))
              + Count(states, steps, n, LossOf(key, Deleted)) + Count(states, steps, n, LossOf(key, Unreadable))
  {
    SendsNeedClaims(c, states, steps, n, key);
    ClaimsBalance(c, states, steps, n, key);
  }
}
