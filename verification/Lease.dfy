/**
  Shard leases and fencing: the Lua scripts of bot-gateway/src/coordination.ts as atomic steps on the
  Redis keys, and the fence check of bot-gateway/src/control-server.ts, under any interleaving of
  any number of nodes.
 */
module Lease {
  import opened Wrappers

  type Node = string
  type Shard = string

  /** `leaseTtlMs` of each node's configuration. */
  datatype Config = Config(ttl: Node -> nat)

  /** What the lease key holds: the JSON encoding is injective, so the value stands for its text. */
  datatype LeaseValue = LeaseValue(nodeId: Node, leaseId: string, epoch: nat, generation: int)

  datatype Stored = Stored(value: LeaseValue, expiresAt: nat)

  datatype Grant = Grant(shard: Shard, value: LeaseValue)

  /** A bridge request that passed the fence check. */
  datatype Pass = Pass(shard: Shard, epoch: nat)

  datatype State = State(
    clock: nat,
    leases: map<Shard, Stored>,
    epochs: map<Shard, nat>,
    targets: map<Shard, Node>,
    draining: set<Node>,
    grants: seq<Grant>,     // every lease ever granted, oldest first
    passes: seq<Pass>)      // every request let through, oldest first

  const INITIAL := State(0, map[], map[], map[], {}, [], [])

  /** GET and EXISTS on the lease key: an expired key is not there. */
  function Current(s: State, shard: Shard): Option<LeaseValue> {
    if shard in s.leases && s.clock < s.leases[shard].expiresAt then Some(s.leases[shard].value) else None
  }

  function EpochOf(s: State, shard: Shard): nat {
    if shard in s.epochs then s.epochs[shard] else 0
  }

  function TargetOf(s: State, shard: Shard): Option<Node> {
    if shard in s.targets then Some(s.targets[shard]) else None
  }

  // ----- The scripts -----

  predicate CanAcquire(s: State, node: Node, shard: Shard) {
    node !in s.draining && TargetOf(s, shard) == Some(node) && Current(s, shard).None?
  }

  function Acquire(c: Config, s: State, node: Node, shard: Shard, leaseId: string, generation: int): State {
    if !CanAcquire(s, node, shard) then s
    else
      var epoch := EpochOf(s, shard) + 1;
      var value := LeaseValue(node, leaseId, epoch, generation);
      s.(epochs := s.epochs[shard := epoch],
         leases := s.leases[shard := Stored(value, s.clock + c.ttl(node))],
         grants := s.grants + [Grant(shard, value)])
  }

  predicate CanRenew(s: State, node: Node, shard: Shard, value: LeaseValue) {
    Current(s, shard) == Some(value) && TargetOf(s, shard) == Some(node)
  }

  function Renew(c: Config, s: State, node: Node, shard: Shard, value: LeaseValue): State {
    if CanRenew(s, node, shard, value)
    then s.(leases := s.leases[shard := Stored(value, s.clock + c.ttl(node))])
    else s
  }

  predicate CanRelease(s: State, shard: Shard, value: LeaseValue) {
    Current(s, shard) == Some(value)
  }

  function Release(s: State, shard: Shard, value: LeaseValue): State {
    if CanRelease(s, shard, value) then s.(leases := s.leases - {shard}) else s
  }

  /** `authenticate` on the bridge path: the request must name the current lease. */
  predicate FencePasses(s: State, shard: Shard, nodeId: Node, epoch: int, generation: int) {
    nodeId != "" &&
    match Current(s, shard)
    case None => false
    case Some(lease) => lease.nodeId == nodeId && lease.epoch == epoch && lease.generation == generation
  }

  function Check(s: State, shard: Shard, nodeId: Node, epoch: int, generation: int): State {
    if FencePasses(s, shard, nodeId, epoch, generation) then s.(passes := s.passes + [Pass(shard, epoch)]) else s
  }

  datatype Step =
    | TickStep(elapsed: nat)
    | AcquireStep(node: Node, shard: Shard, leaseId: string, generation: int)
    | RenewStep(node: Node, shard: Shard, value: LeaseValue)
    | ReleaseStep(shard: Shard, value: LeaseValue)
    | RetargetStep(shard: Shard, target: Option<Node>)
    | DrainStep(node: Node, draining: bool)
    | CheckStep(shard: Shard, nodeId: Node, epoch: int, generation: int)

  /** A node renews only leases that were granted to it. */
  predicate Enabled(step: Step) {
    step.RenewStep? ==> step.value.nodeId == step.node
  }

  function Apply(c: Config, s: State, step: Step): State {
    match step
    case TickStep(elapsed) => s.(clock := s.clock + elapsed)
    case AcquireStep(node, shard, leaseId, generation) => Acquire(c, s, node, shard, leaseId, generation)
    case RenewStep(node, shard, value) => Renew(c, s, node, shard, value)
    case ReleaseStep(shard, value) => Release(s, shard, value)
    case RetargetStep(shard, target) =>
      s.(targets := if target.Some? then s.targets[shard := target.value] else s.targets - {shard})
    case DrainStep(node, draining) =>
      s.(draining := if draining then s.draining + {node} else s.draining - {node})
    case CheckStep(shard, nodeId, epoch, generation) => Check(s, shard, nodeId, epoch, generation)
  }

  // ----- The invariant -----

  /** The stored lease, expired or not, is the newest grant of its shard and has at most a ttl to live. */
  ghost predicate StoredIsNewest(c: Config, s: State) {
    forall shard :: shard in s.leases ==>
      var stored := s.leases[shard];
      && stored.value.epoch == EpochOf(s, shard)
      && Grant(shard, stored.value) in s.grants
      && stored.expiresAt <= s.clock + c.ttl(stored.value.nodeId)
  }

  ghost predicate GrantsBounded(s: State) {
    forall k :: 0 <= k < |s.grants| ==> s.grants[k].value.epoch <= EpochOf(s, s.grants[k].shard)
  }

  /** Epochs of one shard strictly increase from grant to grant. */
  ghost predicate GrantsIncrease(s: State) {
    forall j, k :: 0 <= j < k < |s.grants| && s.grants[j].shard == s.grants[k].shard ==>
                     s.grants[j].value.epoch < s.grants[k].value.epoch
  }

  ghost predicate PassesBounded(s: State) {
    forall k :: 0 <= k < |s.passes| ==> s.passes[k].epoch <= EpochOf(s, s.passes[k].shard)
  }

  /** Epochs of the requests let through never decrease. */
  ghost predicate PassesMonotone(s: State) {
    forall j, k :: 0 <= j < k < |s.passes| && s.passes[j].shard == s.passes[k].shard ==>
                     s.passes[j].epoch <= s.passes[k].epoch
  }

  ghost predicate Inv(c: Config, s: State) {
    StoredIsNewest(c, s) && GrantsBounded(s) && GrantsIncrease(s) && PassesBounded(s) && PassesMonotone(s)
  }

  lemma AcquireKeeps(c: Config, s: State, node: Node, shard: Shard, leaseId: string, generation: int)
    requires Inv(c, s)
    ensures Inv(c, Acquire(c, s, node, shard, leaseId, generation))
  {
    if CanAcquire(s, node, shard) {
      var s' := Acquire(c, s, node, shard, leaseId, generation);
      assert forall d :: EpochOf(s', d) == if d == shard then EpochOf(s, d) + 1 else EpochOf(s, d);
      AcquireStores(c, s, node, shard, leaseId, generation);
    }
  }

  lemma AcquireStores(c: Config, s: State, node: Node, shard: Shard, leaseId: string, generation: int)
    requires StoredIsNewest(c, s) && CanAcquire(s, node, shard)
    ensures StoredIsNewest(c, Acquire(c, s, node, shard, leaseId, generation))
  {
    var s' := Acquire(c, s, node, shard, leaseId, generation);
    assert s'.grants[|s.grants|] == Grant(shard, s'.leases[shard].value);
    forall d | d in s'.leases && d != shard ensures Grant(d, s'.leases[d].value) in s'.grants {
      assert Grant(d, s.leases[d].value) in s.grants;
    }
  }

  lemma CheckKeeps(c: Config, s: State, shard: Shard, nodeId: Node, epoch: int, generation: int)
    requires Inv(c, s)
    ensures Inv(c, Check(s, shard, nodeId, epoch, generation))
  {
    var s' := Check(s, shard, nodeId, epoch, generation);
    assert forall d :: EpochOf(s', d) == EpochOf(s, d);
  }

  lemma ApplyKeeps(c: Config, s: State, step: Step)
    requires Inv(c, s) && Enabled(step)
    ensures Inv(c, Apply(c, s, step))
  {
    match step
    case AcquireStep(node, shard, leaseId, generation) => AcquireKeeps(c, s, node, shard, leaseId, generation);
    case CheckStep(shard, nodeId, epoch, generation) => CheckKeeps(c, s, shard, nodeId, epoch, generation);
    case _ =>
      var s' := Apply(c, s, step);
      assert forall d :: EpochOf(s', d) == EpochOf(s, d);
  }

  // ----- Runs -----

  ghost predicate IsRun(c: Config, states: seq<State>, steps: seq<Step>) {
    && |states| == |steps| + 1
    && states[0] == INITIAL
    && forall i :: 0 <= i < |steps| ==> FollowsAt(c, states, steps, i)
  }

  ghost predicate FollowsAt(c: Config, states: seq<State>, steps: seq<Step>, i: nat)
    requires i < |steps| && |states| == |steps| + 1
  {
    Enabled(steps[i]) && states[i + 1] == Apply(c, states[i], steps[i])
  }

  lemma {:induction false} RunKeepsInv(c: Config, states: seq<State>, steps: seq<Step>, i: nat)
    requires IsRun(c, states, steps) && i < |states|
    ensures Inv(c, states[i])
  {
    if i > 0 {
      RunKeepsInv(c, states, steps, i - 1);
      assert FollowsAt(c, states, steps, i - 1);
      ApplyKeeps(c, states[i - 1], steps[i - 1]);
    }
  }

  /** A grant is live when the lease key holds its value. */
  predicate IsLive(s: State, grant: Grant) {
    Current(s, grant.shard) == Some(grant.value)
  }

  /** Of all the leases ever granted on a shard at most one is live, and granted epochs strictly increase. */
  lemma AtMostOneLiveLease(c: Config, states: seq<State>, steps: seq<Step>, i: nat, j: nat, k: nat)
    requires IsRun(c, states, steps) && i < |states|
    requires j < |states[i].grants| && k < |states[i].grants| && states[i].grants[j].shard == states[i].grants[k].shard
    ensures j < k ==> states[i].grants[j].value.epoch < states[i].grants[k].value.epoch
    ensures IsLive(states[i], states[i].grants[j]) && IsLive(states[i], states[i].grants[k]) ==> j == k
  {
    RunKeepsInv(c, states, steps, i);
  }

  /** The log of a step's effects only grows. */
  lemma StepGrows(c: Config, s: State, step: Step, shard: Shard)
    ensures EpochOf(s, shard) <= EpochOf(Apply(c, s, step), shard)
    ensures s.grants <= Apply(c, s, step).grants
    ensures s.clock <= Apply(c, s, step).clock
  {
  }

  lemma {:induction false} RunGrows(c: Config, states: seq<State>, steps: seq<Step>, i: nat, j: nat, shard: Shard)
    requires IsRun(c, states, steps) && i <= j < |states|
    ensures EpochOf(states[i], shard) <= EpochOf(states[j], shard)
    ensures states[i].grants <= states[j].grants
    ensures states[i].clock <= states[j].clock
    decreases j - i
  {
    if i < j {
      RunGrows(c, states, steps, i, j - 1, shard);
      assert FollowsAt(c, states, steps, j - 1);
      StepGrows(c, states[j - 1], steps[j - 1], shard);
    }
  }

  /** Fencing: once a lease has been granted, no request of an older one passes, ever after. */
  lemma NoStaleRequestPasses(c: Config, states: seq<State>, steps: seq<Step>, i: nat, j: nat, k: nat,
                             nodeId: Node, epoch: int, generation: int)
    requires IsRun(c, states, steps) && i <= j < |states| && k < |states[i].grants|
    requires epoch < states[i].grants[k].value.epoch
    ensures !FencePasses(states[j], states[i].grants[k].shard, nodeId, epoch, generation)
  {
    var shard := states[i].grants[k].shard;
    RunKeepsInv(c, states, steps, i);
    RunKeepsInv(c, states, steps, j);
    RunGrows(c, states, steps, i, j, shard);
  }

  /** The requests let through, in order, never step back to an older lease. */
  lemma PassedEpochsNeverDecrease(c: Config, states: seq<State>, steps: seq<Step>, i: nat, j: nat, k: nat)
    requires IsRun(c, states, steps) && i < |states| && j < k < |states[i].passes|
    requires states[i].passes[j].shard == states[i].passes[k].shard
    ensures states[i].passes[j].epoch <= states[i].passes[k].epoch
  {
    RunKeepsInv(c, states, steps, i);
  }

  /** A lease superseded by a later grant can never again renew or release anything. */
  lemma SupersededIsPowerless(
    c: Config, states: seq<State>, steps: seq<Step>, i: nat, j: nat, earlier: nat, later: nat, node: Node)
    requires IsRun(c, states, steps) && i <= j < |states| && earlier < later < |states[i].grants|
    requires states[i].grants[earlier].shard == states[i].grants[later].shard
    ensures var lease := states[i].grants[earlier];
            && !CanRenew(states[j], node, lease.shard, lease.value)
            && !CanRelease(states[j], lease.shard, lease.value)
            && Renew(c, states[j], node, lease.shard, lease.value) == states[j]
            && Release(states[j], lease.shard, lease.value) == states[j]
  {
    var lease := states[i].grants[earlier];
    RunKeepsInv(c, states, steps, i);
    RunKeepsInv(c, states, steps, j);
    RunGrows(c, states, steps, i, j, lease.shard);
    assert lease.value.epoch < states[i].grants[later].value.epoch;
  }

  // ----- Moving a shard away -----

  /** The lease `node` may still hold on the shard ends by `deadline`. */
  ghost predicate EndsBy(s: State, shard: Shard, node: Node, deadline: nat) {
    shard in s.leases && s.leases[shard].value.nodeId == node ==> s.leases[shard].expiresAt <= deadline
  }

  lemma StepKeepsDeadline(c: Config, s: State, step: Step, shard: Shard, node: Node, deadline: nat)
    requires Enabled(step) && EndsBy(s, shard, node, deadline) && TargetOf(s, shard) != Some(node)
    ensures EndsBy(Apply(c, s, step), shard, node, deadline)
  {
  }

  ghost predicate StaysAway(states: seq<State>, i: nat, j: nat, shard: Shard, node: Node)
    requires i <= j < |states|
  {
    forall m :: i <= m <= j ==> TargetOf(states[m], shard) != Some(node)
  }

  lemma {:induction false} DeadlineHolds(
    c: Config, states: seq<State>, steps: seq<Step>, i: nat, j: nat, shard: Shard, node: Node)
    requires IsRun(c, states, steps) && i <= j < |states| && StaysAway(states, i, j, shard, node)
    ensures EndsBy(states[j], shard, node, states[i].clock + c.ttl(node))
    decreases j - i
  {
    if i == j {
      RunKeepsInv(c, states, steps, i);
    } else {
      DeadlineHolds(c, states, steps, i, j - 1, shard, node);
      assert FollowsAt(c, states, steps, j - 1);
      StepKeepsDeadline(c, states[j - 1], steps[j - 1], shard, node, states[i].clock + c.ttl(node));
    }
  }

  /** Once the target has moved away and stays away, the node's lease is gone within its ttl,
      whatever it does, and it is granted none in the meantime. */
  lemma {:induction false} MovedAwayLosesLease(
    c: Config, states: seq<State>, steps: seq<Step>, i: nat, j: nat, shard: Shard, node: Node)
    requires IsRun(c, states, steps) && i <= j < |states| && StaysAway(states, i, j, shard, node)
    ensures states[j].clock >= states[i].clock + c.ttl(node) ==>
              Current(states[j], shard).None? || Current(states[j], shard).value.nodeId != node
    ensures forall k :: |states[i].grants| <= k < |states[j].grants| && states[j].grants[k].shard == shard ==>
              states[j].grants[k].value.nodeId != node
    decreases j - i
  {
    DeadlineHolds(c, states, steps, i, j, shard, node);
    if i < j {
      MovedAwayLosesLease(c, states, steps, i, j - 1, shard, node);
      assert FollowsAt(c, states, steps, j - 1);
      assert TargetOf(states[j - 1], shard) != Some(node);
    }
  }

  /** Every grant of a run was made to the target of its shard, which was not draining, and on a
      shard without a live lease. */
  lemma GrantsGoToTarget(c: Config, states: seq<State>, steps: seq<Step>, i: nat)
    requires IsRun(c, states, steps) && i < |steps| && |states[i].grants| < |states[i + 1].grants|
    ensures |states[i + 1].grants| == |states[i].grants| + 1
    ensures var grant := states[i + 1].grants[|states[i].grants|];
            && TargetOf(states[i], grant.shard) == Some(grant.value.nodeId)
            && grant.value.nodeId !in states[i].draining
            && Current(states[i], grant.shard).None?
  {
    assert FollowsAt(c, states, steps, i);
  }

  // ----- The keys, changed in place -----

  class CoordinationStore {
    const config: Config
    var leases: map<Shard, Stored>
    var epochs: map<Shard, nat>
    var targets: map<Shard, Node>
    var draining: set<Node>
    var clock: nat
    ghost var view: State

    ghost predicate Tied()
      reads this
    {
      leases == view.leases && epochs == view.epochs && targets == view.targets &&
      draining == view.draining && clock == view.clock
    }

    ghost predicate Valid()
      reads this
    {
      Tied() && Inv(config, view)
    }

    constructor (config: Config)
      ensures Valid() && this.config == config && view == INITIAL
    {
      this.config := config;
      leases, epochs, targets, draining, clock, view := map[], map[], map[], {}, 0, INITIAL;
    }

    method AcquireScript(node: Node, shard: Shard, leaseId: string, generation: int) returns (lease: Option<LeaseValue>)
      requires Tied()
      modifies this
      ensures Tied() && view == Acquire(config, old(view), node, shard, leaseId, generation)
      ensures lease.Some? <==>
              && node !in old(draining) && shard in old(targets) && old(targets)[shard] == node
              && !(shard in old(leases) && clock < old(leases)[shard].expiresAt)
      ensures lease.Some? ==>
              && lease.value.nodeId == node && lease.value.leaseId == leaseId && lease.value.generation == generation
              && leases == old(leases)[shard := Stored(lease.value, clock + config.ttl(node))]
              && view.grants == old(view).grants + [Grant(shard, lease.value)]
      ensures lease.None? ==> leases == old(leases) && epochs == old(epochs)
      ensures targets == old(targets) && draining == old(draining) && clock == old(clock)
    {
      view := Acquire(config, view, node, shard, leaseId, generation);
      if node in draining {
        return None;
      }
      if shard !in targets || targets[shard] != node {
        return None;
      }
      if shard in leases && clock < leases[shard].expiresAt {
        return None;
      }
      var epoch := (if shard in epochs then epochs[shard] else 0) + 1;
      epochs := epochs[shard := epoch];
      var value := LeaseValue(node, leaseId, epoch, generation);
      leases := leases[shard := Stored(value, clock + config.ttl(node))];
      lease := Some(value);
    }

    /** `acquire`: a lease exactly when the node is the target, not draining, and no lease is live. */
    method TryAcquire(node: Node, shard: Shard, leaseId: string, generation: int) returns (lease: Option<LeaseValue>)
      requires Valid()
      modifies this
      ensures Valid() && view == Acquire(config, old(view), node, shard, leaseId, generation)
      ensures lease.Some? <==>
              && node !in old(draining) && shard in old(targets) && old(targets)[shard] == node
              && !(shard in old(leases) && clock < old(leases)[shard].expiresAt)
      ensures lease.Some? ==>
              && lease.value.nodeId == node && lease.value.leaseId == leaseId && lease.value.generation == generation
              && leases == old(leases)[shard := Stored(lease.value, clock + config.ttl(node))]
              && view.grants == old(view).grants + [Grant(shard, lease.value)]
      ensures lease.None? ==> leases == old(leases) && epochs == old(epochs)
      ensures targets == old(targets) && draining == old(draining) && clock == old(clock)
    {
      AcquireKeeps(config, view, node, shard, leaseId, generation);
      lease := AcquireScript(node, shard, leaseId, generation);
    }

    method RenewScript(node: Node, shard: Shard, value: LeaseValue) returns (renewed: bool)
      requires Tied()
      modifies this
      ensures Tied() && view == Renew(config, old(view), node, shard, value)
      ensures renewed <==>
              && shard in old(leases) && clock < old(leases)[shard].expiresAt && old(leases)[shard].value == value
              && shard in targets && targets[shard] == node
      ensures leases == if renewed then old(leases)[shard := Stored(value, clock + config.ttl(node))] else old(leases)
      ensures targets == old(targets) && draining == old(draining) && clock == old(clock) && epochs == old(epochs)
    {
      view := Renew(config, view, node, shard, value);
      renewed := shard in leases && clock < leases[shard].expiresAt && leases[shard].value == value
                 && shard in targets && targets[shard] == node;
      if renewed {
        leases := leases[shard := Stored(value, clock + config.ttl(node))];
      }
    }

    method TryRenew(node: Node, shard: Shard, value: LeaseValue) returns (renewed: bool)
      requires Valid() && value.nodeId == node
      modifies this
      ensures Valid() && view == Renew(config, old(view), node, shard, value)
      ensures renewed <==>
              && shard in old(leases) && clock < old(leases)[shard].expiresAt && old(leases)[shard].value == value
              && shard in targets && targets[shard] == node
      ensures leases == if renewed then old(leases)[shard := Stored(value, clock + config.ttl(node))] else old(leases)
      ensures targets == old(targets) && draining == old(draining) && clock == old(clock) && epochs == old(epochs)
    {
      ApplyKeeps(config, view, RenewStep(node, shard, value));
      renewed := RenewScript(node, shard, value);
    }

    method TryRelease(shard: Shard, value: LeaseValue) returns (released: bool)
      requires Valid()
      modifies this
      ensures Valid() && view == Release(old(view), shard, value)
      ensures released <==>
              shard in old(leases) && clock < old(leases)[shard].expiresAt && old(leases)[shard].value == value
      ensures leases == if released then old(leases) - {shard} else old(leases)
      ensures targets == old(targets) && draining == old(draining) && clock == old(clock) && epochs == old(epochs)
    {
      ApplyKeeps(config, view, ReleaseStep(shard, value));
      view := Release(view, shard, value);
      released := shard in leases && clock < leases[shard].expiresAt && leases[shard].value == value;
      if released {
        leases := leases - {shard};
      }
    }

    method SetDraining(node: Node, on: bool)
      requires Valid()
      modifies this
      ensures Valid() && view == Apply(config, old(view), DrainStep(node, on))
      ensures forall other :: other in draining <==> if other == node then on else other in old(draining)
      ensures leases == old(leases) && targets == old(targets) && clock == old(clock) && epochs == old(epochs)
    {
      ApplyKeeps(config, view, DrainStep(node, on));
      view := Apply(config, view, DrainStep(node, on));
      draining := if on then draining + {node} else draining - {node};
    }

    /** The fence of `authenticate`: true lets the request through. */
    method Authenticate(shard: Shard, nodeId: Node, epoch: int, generation: int) returns (ok: bool)
      requires Valid()
      modifies this
      ensures Valid() && view == Check(old(view), shard, nodeId, epoch, generation)
      ensures ok <==>
              && nodeId != "" && shard in leases && clock < leases[shard].expiresAt
              && leases[shard].value.nodeId == nodeId && leases[shard].value.epoch == epoch
              && leases[shard].value.generation == generation
      ensures leases == old(leases) && targets == old(targets) && draining == old(draining)
      ensures clock == old(clock) && epochs == old(epochs)
    {
      CheckKeeps(config, view, shard, nodeId, epoch, generation);
      view := Check(view, shard, nodeId, epoch, generation);
      if nodeId == "" || shard !in leases || clock >= leases[shard].expiresAt {
        return false;
      }
      var lease := leases[shard].value;
      ok := lease.nodeId == nodeId && lease.epoch == epoch && lease.generation == generation;
    }
  }
}
