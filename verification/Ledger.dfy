/** The replay ledger of bot-gateway/src/state-worker.ts: who may process an event, and what to replay. */
module Ledger {
  import opened Wrappers

  type Key = string

  datatype Reply = Reply(chunks: seq<string>, isError: bool, reason: string)

  /** The `state` and `reply_json` columns; a completed row may hold text that does not decode. */
  datatype Progress = Processing | Completed(reply: Option<Reply>)

  datatype Record = Record(progress: Progress, expiresAt: int)

  type Table = map<Key, Record>

  datatype Config = Config(replayTtlMs: nat)

  const PROCESSING_LEASE_MS := 15 * 60 * 1000

  datatype Claim = New | InProgress | Replay(reply: Reply)

  function LeaseMs(c: Config): nat {
    if c.replayTtlMs < PROCESSING_LEASE_MS then c.replayTtlMs else PROCESSING_LEASE_MS
  }

  function Purge(t: Table, now: int): Table {
    map key | key in t && t[key].expiresAt > now :: t[key]
  }

  function ClaimResult(t: Table, key: Key, now: int): Claim {
    var purged := Purge(t, now);
    if key !in purged then New
    else match purged[key].progress
         case Processing => InProgress
         case Completed(reply) => if reply.Some? then Replay(reply.value) else New
  }

  function ClaimEvent(c: Config, t: Table, key: Key, now: int): Table {
    if ClaimResult(t, key, now).New?
    then Purge(t, now)[key := Record(Processing, now + LeaseMs(c))]
    else Purge(t, now)
  }

  /** An UPDATE: nothing happens when the row is gone. */
  function CompleteEvent(c: Config, t: Table, key: Key, reply: Reply, now: int): Table {
    if key in t then t[key := Record(Completed(Some(reply)), now + c.replayTtlMs)] else t
  }

  predicate Releases(t: Table, key: Key) {
    key in t && t[key].progress.Processing?
  }

  function ReleaseEvent(t: Table, key: Key): Table {
    if Releases(t, key) then t - {key} else t
  }

  // ----- Runs -----

  datatype Op =
    | ClaimOp(key: Key)
    | CompleteOp(key: Key, reply: Reply)
    | ReleaseOp(key: Key)
    | PurgeOp

  function Apply(c: Config, t: Table, op: Op, now: int): Table {
    match op
    case ClaimOp(key) => ClaimEvent(c, t, key, now)
    case CompleteOp(key, reply) => CompleteEvent(c, t, key, reply, now)
    case ReleaseOp(key) => ReleaseEvent(t, key)
    case PurgeOp => Purge(t, now)
  }

  ghost predicate FollowsAt(c: Config, tables: seq<Table>, ops: seq<Op>, times: seq<int>, i: nat)
    requires i < |ops| && |tables| == |ops| + 1 == |times| + 1
  {
    tables[i + 1] == Apply(c, tables[i], ops[i], times[i])
  }

  /** Operations at non-decreasing times, and the tables between them. */
  ghost predicate IsRun(c: Config, tables: seq<Table>, ops: seq<Op>, times: seq<int>) {
    && |tables| == |ops| + 1 == |times| + 1
    && (forall i :: 0 <= i < |ops| ==> FollowsAt(c, tables, ops, times, i))
    && (forall i, j :: 0 <= i <= j < |times| ==> times[i] <= times[j])
  }

  lemma RunTimes(c: Config, tables: seq<Table>, ops: seq<Op>, times: seq<int>, i: nat, j: nat)
    requires IsRun(c, tables, ops, times) && i <= j < |ops|
    ensures times[i] <= times[j] && tables[i + 1] == Apply(c, tables[i], ops[i], times[i])
  {
    assert FollowsAt(c, tables, ops, times, i);
  }

  ghost predicate NotReleased(tables: seq<Table>, ops: seq<Op>, i: nat, j: nat, key: Key)
    requires j <= |ops| < |tables|
  {
    forall m :: i <= m < j && ops[m] == ReleaseOp(key) ==> !Releases(tables[m], key)
  }

  /** The key cannot be claimed afresh before `until`. */
  predicate Guards(t: Table, key: Key, until: int) {
    key in t && t[key].expiresAt >= until && (t[key].progress.Completed? ==> t[key].progress.reply.Some?)
  }

  lemma StepGuards(c: Config, t: Table, op: Op, now: int, key: Key, until: int)
    requires Guards(t, key, until) && now < until <= now + c.replayTtlMs
    requires op == ReleaseOp(key) ==> !Releases(t, key)
    ensures Guards(Apply(c, t, op, now), key, until)
    ensures op == ClaimOp(key) ==> !ClaimResult(t, key, now).New?
  {
  }

  lemma {:induction false} GuardLasts(c: Config, tables: seq<Table>, ops: seq<Op>, times: seq<int>, i: nat, j: nat,
                                      key: Key, until: int)
    requires IsRun(c, tables, ops, times) && i <= j < |ops| && Guards(tables[i], key, until)
    requires times[j] < until <= times[i] + c.replayTtlMs && NotReleased(tables, ops, i, j, key)
    ensures Guards(tables[j], key, until)
    decreases j - i
  {
    if i < j {
      RunTimes(c, tables, ops, times, i, j);
      RunTimes(c, tables, ops, times, j - 1, j);
      RunTimes(c, tables, ops, times, i, j - 1);
      GuardLasts(c, tables, ops, times, i, j - 1, key, until);
      StepGuards(c, tables[j - 1], ops[j - 1], times[j - 1], key, until);
    }
  }

  /** After a `new` claim at time t no other claim of the key is `new` before t + min(replayTtl, 15 min),
      unless the claim is released. */
  lemma ClaimIsExclusive(c: Config, tables: seq<Table>, ops: seq<Op>, times: seq<int>, i: nat, j: nat, key: Key)
    requires IsRun(c, tables, ops, times) && i < j < |ops|
    requires ops[i] == ClaimOp(key) && ClaimResult(tables[i], key, times[i]).New?
    requires ops[j] == ClaimOp(key) && times[j] < times[i] + c.replayTtlMs && times[j] < times[i] + 900000
    requires NotReleased(tables, ops, i + 1, j, key)
    ensures !ClaimResult(tables[j], key, times[j]).New?
  {
    var until := times[i] + LeaseMs(c);
    RunTimes(c, tables, ops, times, i, j);
    RunTimes(c, tables, ops, times, i, i + 1);
    GuardLasts(c, tables, ops, times, i + 1, j, key, until);
    StepGuards(c, tables[j], ops[j], times[j], key, until);
  }

  /** The reply of the last completion of `key` before operation `j`, given the one in force at `i`. */
  function LastReply(ops: seq<Op>, i: nat, j: nat, key: Key, reply: Reply): Reply
    requires i <= j <= |ops|
    decreases j - i
  {
    if i == j then reply
    else if ops[j - 1].CompleteOp? && ops[j - 1].key == key then ops[j - 1].reply
    else LastReply(ops, i, j - 1, key, reply)
  }

  lemma {:induction false} ReplyLasts(c: Config, tables: seq<Table>, ops: seq<Op>, times: seq<int>, i: nat, j: nat,
                                      key: Key, reply: Reply, until: int)
    requires IsRun(c, tables, ops, times) && i <= j < |ops| && times[j] < until <= times[i] + c.replayTtlMs
    requires key in tables[i] && tables[i][key].progress == Completed(Some(reply)) && tables[i][key].expiresAt >= until
    ensures key in tables[j] && tables[j][key].expiresAt >= until
    ensures tables[j][key].progress == Completed(Some(LastReply(ops, i, j, key, reply)))
    decreases j - i
  {
    if i < j {
      ReplyLasts(c, tables, ops, times, i, j - 1, key, reply, until);
      RunTimes(c, tables, ops, times, j - 1, j);
    }
  }

  lemma LiveReplyAnswers(t: Table, key: Key, now: int, reply: Reply)
    requires key in t && t[key].progress == Completed(Some(reply)) && t[key].expiresAt > now
    ensures ClaimResult(t, key, now) == Replay(reply)
  {
    assert key in Purge(t, now);
  }

  lemma CompletionStores(c: Config, t: Table, key: Key, reply: Reply, now: int)
    requires key in t
    ensures key in Apply(c, t, CompleteOp(key, reply), now)
    ensures Apply(c, t, CompleteOp(key, reply), now)[key] == Record(Completed(Some(reply)), now + c.replayTtlMs)
  {
  }

  /** After a completion at time t of a record still present, every claim of the key before
      t + replayTtl returns the last completed reply. */
  lemma CompletedReplyIsReplayed(c: Config, tables: seq<Table>, ops: seq<Op>, times: seq<int>, i: nat, j: nat,
                                 key: Key, reply: Reply)
    requires IsRun(c, tables, ops, times) && i < j < |ops|
    requires ops[i] == CompleteOp(key, reply) && key in tables[i]
    requires ops[j] == ClaimOp(key) && times[j] < times[i] + c.replayTtlMs
    ensures ClaimResult(tables[j], key, times[j]) == Replay(LastReply(ops, i + 1, j, key, reply))
  {
    AfterCompletion(c, tables, ops, times, i, key, reply);
    ReplyLasts(c, tables, ops, times, i + 1, j, key, reply, times[i] + c.replayTtlMs);
    LiveReplyAnswers(tables[j], key, times[j], LastReply(ops, i + 1, j, key, reply));
  }

  lemma AfterCompletion(c: Config, tables: seq<Table>, ops: seq<Op>, times: seq<int>, i: nat, key: Key, reply: Reply)
    requires IsRun(c, tables, ops, times) && i + 1 < |ops| && ops[i] == CompleteOp(key, reply) && key in tables[i]
    ensures key in tables[i + 1] && tables[i + 1][key] == Record(Completed(Some(reply)), times[i] + c.replayTtlMs)
    ensures times[i] <= times[i + 1]
  {
    RunTimes(c, tables, ops, times, i, i + 1);
    CompletionStores(c, tables[i], key, reply, times[i]);
  }

  /** The bounds are tight: a claim left alone holds the event for min(replayTtl, 15 min), and not a moment longer. */
  lemma LeaseEndsOnTime(c: Config, t: Table, key: Key, now: int, later: int)
    requires ClaimResult(t, key, now).New?
    ensures ClaimResult(ClaimEvent(c, t, key, now), key, later) ==
            if later < now + c.replayTtlMs && later < now + 900000 then InProgress else New
  {
    var t' := ClaimEvent(c, t, key, now);
    assert key in t' && t'[key].progress.Processing?;
  }

  // ----- Keys do not interfere -----

  predicate Concerns(op: Op, key: Key) {
    !op.PurgeOp? && op.key == key
  }

  /** The record, or its absence after it expired by `now`. */
  predicate KeptOrExpired(t: Table, key: Key, record: Record, now: int) {
    if key in t then t[key] == record else record.expiresAt <= now
  }

  /** An operation on another key, or a purge, takes a record away only when it has expired, and never alters it. */
  lemma OthersUntouched(c: Config, t: Table, op: Op, now: int, key: Key, record: Record, before: int)
    requires !Concerns(op, key) && before <= now && KeptOrExpired(t, key, record, before)
    ensures KeptOrExpired(Apply(c, t, op, now), key, record, now)
    ensures key !in t ==> key !in Apply(c, t, op, now)
  {
  }

  lemma {:induction false} RecordUntouched(c: Config, tables: seq<Table>, ops: seq<Op>, times: seq<int>, i: nat, j: nat,
                                           key: Key, record: Record)
    requires IsRun(c, tables, ops, times) && i < j < |ops| && key in tables[i + 1] && tables[i + 1][key] == record
    requires forall m :: i < m < j ==> !Concerns(ops[m], key)
    ensures KeptOrExpired(tables[j], key, record, times[j])
    decreases j - i
  {
    if i + 1 < j {
      RecordUntouched(c, tables, ops, times, i, j - 1, key, record);
      RunTimes(c, tables, ops, times, j - 1, j);
      assert !Concerns(ops[j - 1], key);
      OthersUntouched(c, tables[j - 1], ops[j - 1], times[j - 1], key, record, times[j - 1]);
    }
  }

  /**
    The whole life of a record nothing else is done to: over every run a claim of the event gets the completed reply
    before now + replayTtl and `new` from then on; a claim after a `new` claim finds it in progress before
    now + min(replayTtl, 15 min) and gets `new` from then on; and after a release it gets `new`.
   */
  lemma NextClaimIff(c: Config, tables: seq<Table>, ops: seq<Op>, times: seq<int>, i: nat, j: nat, key: Key)
    requires IsRun(c, tables, ops, times) && i < j < |ops| && ops[j] == ClaimOp(key)
    requires forall m :: i < m < j ==> !Concerns(ops[m], key)
    ensures ops[i].CompleteOp? && ops[i].key == key && key in tables[i] ==>
              ClaimResult(tables[j], key, times[j]) ==
              if times[j] < times[i] + c.replayTtlMs then Replay(ops[i].reply) else New
    ensures ops[i] == ClaimOp(key) && ClaimResult(tables[i], key, times[i]).New? ==>
              ClaimResult(tables[j], key, times[j]) ==
              if times[j] < times[i] + c.replayTtlMs && times[j] < times[i] + 900000 then InProgress else New
    ensures ops[i] == ReleaseOp(key) && key in tables[i] && tables[i][key].progress.Processing? ==>
              ClaimResult(tables[j], key, times[j]) == New
  {
    RunTimes(c, tables, ops, times, i, j);
    if ops[i].CompleteOp? && ops[i].key == key && key in tables[i] {
      CompletionStores(c, tables[i], key, ops[i].reply, times[i]);
      RecordUntouched(c, tables, ops, times, i, j, key, tables[i + 1][key]);
    } else if ops[i] == ClaimOp(key) && ClaimResult(tables[i], key, times[i]).New? {
      assert key in tables[i + 1] && tables[i + 1][key].progress.Processing?;
      RecordUntouched(c, tables, ops, times, i, j, key, tables[i + 1][key]);
    } else if ops[i] == ReleaseOp(key) && key in tables[i] && tables[i][key].progress.Processing? {
      StaysAbsent(c, tables, ops, times, i + 1, j, key);
    }
  }

  lemma {:induction false} StaysAbsent(c: Config, tables: seq<Table>, ops: seq<Op>, times: seq<int>, i: nat, j: nat,
                                       key: Key)
    requires IsRun(c, tables, ops, times) && i <= j < |ops| && key !in tables[i]
    requires forall m :: i <= m < j ==> !Concerns(ops[m], key)
    ensures key !in tables[j]
    decreases j - i
  {
    if i < j {
      StaysAbsent(c, tables, ops, times, i, j - 1, key);
      RunTimes(c, tables, ops, times, j - 1, j);
      assert !Concerns(ops[j - 1], key);
    }
  }

  /** Rows were deleted exactly when some had expired. */
  lemma KeptAll(t: Table, kept: Table, now: int)
    requires kept == map key | key in t && t[key].expiresAt > now :: t[key]
    ensures |kept| < |t| <==> exists key :: key in t && t[key].expiresAt <= now
  {
    if key :| key in t && t[key].expiresAt <= now {
      Fewer(kept.Keys, t.Keys, key);
    } else {
      assert kept == t;
    }
  }

  lemma Fewer(a: set<Key>, b: set<Key>, key: Key)
    requires a <= b && key in b && key !in a
    ensures |a| < |b|
  {
    assert a <= b - {key};
    Smaller(a, b - {key});
  }

  lemma {:induction false} Smaller(a: set<Key>, b: set<Key>)
    requires a <= b
    ensures |a| <= |b|
  {
    if a != {} {
      var key :| key in a;
      Smaller(a - {key}, b - {key});
    }
  }

  // ----- The table, changed in place -----

  class ReplayStore {
    const config: Config
    var table: Table

    constructor (config: Config)
      ensures this.config == config && table == map[]
    {
      this.config := config;
      table := map[];
    }

    method PurgeExpired(now: int) returns (changed: bool)
      modifies this
      ensures table.Keys == set key | key in old(table) && old(table)[key].expiresAt > now
      ensures forall key :: key in table ==> table[key] == old(table)[key]
      ensures changed <==> exists key :: key in old(table) && old(table)[key].expiresAt <= now
      ensures table == Purge(old(table), now)
    {
      var kept := map key | key in table && table[key].expiresAt > now :: table[key];
      changed := |kept| < |table|;
      KeptAll(table, kept, now);
      table := kept;
    }

    method ClaimKey(key: Key, now: int) returns (claim: Claim)
      modifies this
      ensures claim == ClaimResult(old(table), key, now) && table == ClaimEvent(config, old(table), key, now)
      ensures claim.InProgress? <==>
              key in old(table) && old(table)[key].expiresAt > now && old(table)[key].progress.Processing?
      ensures claim.Replay? <==>
              && key in old(table) && old(table)[key].expiresAt > now
              && old(table)[key].progress.Completed? && old(table)[key].progress.reply.Some?
      ensures claim.Replay? ==> old(table)[key].progress.reply == Some(claim.reply)
      ensures forall other :: other != key && other in old(table) && old(table)[other].expiresAt > now ==>
                                other in table && table[other] == old(table)[other]
    {
      var changed := PurgeExpired(now);
      if key in table && table[key].progress.Completed? {
        if table[key].progress.reply.Some? {
          return Replay(table[key].progress.reply.value);
        }
      } else if key in table {
        return InProgress;
      }
      var lease := if config.replayTtlMs < PROCESSING_LEASE_MS then config.replayTtlMs else PROCESSING_LEASE_MS;
      table := table[key := Record(Processing, now + lease)];
      return New;
    }

    method CompleteKey(key: Key, reply: Reply, now: int)
      modifies this
      ensures table == CompleteEvent(config, old(table), key, reply, now)
    {
      if key in table {
        table := table[key := Record(Completed(Some(reply)), now + config.replayTtlMs)];
      }
    }

    method ReleaseKey(key: Key) returns (released: bool)
      modifies this
      ensures released == Releases(old(table), key) && table == ReleaseEvent(old(table), key)
    {
      if key !in table || !table[key].progress.Processing? {
        return false;
      }
      table := table - {key};
      return true;
    }
  }
}
