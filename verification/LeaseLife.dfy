/** How long a lease lasts: from the step that obtains it to its release or expiry, in every run of `Lease`. */
module LeaseLife {
  import opened Wrappers
  import opened Lease

  // ----- What one step obtains -----

  /** Step `i` granted `value`, a lease that was not on record before. */
  predicate Grants(states: seq<State>, i: nat, shard: Shard, value: LeaseValue) {
    i + 1 < |states| && states[i + 1].grants == states[i].grants + [Grant(shard, value)]
  }

  /** Step `i` is a renewal by the holder of a live lease that is still the shard's target. */
  predicate Renews(states: seq<State>, steps: seq<Step>, i: nat, shard: Shard, value: LeaseValue) {
    && i < |steps| < |states| && steps[i] == RenewStep(value.nodeId, shard, value)
    && Current(states[i], shard) == Some(value) && TargetOf(states[i], shard) == Some(value.nodeId)
  }

  predicate Obtains(states: seq<State>, steps: seq<Step>, i: nat, shard: Shard, value: LeaseValue) {
    Grants(states, i, shard, value) || Renews(states, steps, i, shard, value)
  }

  /**
    An acquisition is granted exactly when the node is the shard's target, is not draining and finds no live lease.
    The grant names the asker, its lease id and generation, and an epoch above every earlier one of the shard.
   */
  lemma AcquiredIff(c: Config, states: seq<State>, steps: seq<Step>, i: nat)
    requires IsRun(c, states, steps) && i < |steps| && steps[i].AcquireStep?
    ensures var (s, s', step) := (states[i], states[i + 1], steps[i]);
            if step.node !in s.draining && step.shard in s.targets && s.targets[step.shard] == step.node
               && Current(s, step.shard).None?
            then
              && |s'.grants| == |s.grants| + 1
              && (var grant := s'.grants[|s.grants|];
                  && Grants(states, i, step.shard, grant.value)
                  && grant.value.nodeId == step.node && grant.value.leaseId == step.leaseId
                  && grant.value.generation == step.generation
                  && (forall k :: 0 <= k < |s.grants| && s.grants[k].shard == step.shard ==>
                        s.grants[k].value.epoch < grant.value.epoch))
            else s' == s
  {
    assert FollowsAt(c, states, steps, i);
    RunKeepsInv(c, states, steps, i);
  }

  // ----- Lasting -----

  predicate LivesUntil(s: State, shard: Shard, value: LeaseValue, until: nat) {
    shard in s.leases && s.leases[shard].value == value && s.leases[shard].expiresAt >= until
  }

  lemma ObtainedLives(c: Config, states: seq<State>, steps: seq<Step>, i: nat, shard: Shard, value: LeaseValue)
    requires IsRun(c, states, steps) && i < |steps| && Obtains(states, steps, i, shard, value)
    ensures LivesUntil(states[i + 1], shard, value, states[i].clock + c.ttl(value.nodeId))
    ensures states[i + 1].clock == states[i].clock && Grant(shard, value) in states[i + 1].grants
  {
    assert FollowsAt(c, states, steps, i);
    if Grants(states, i, shard, value) {
      assert states[i + 1].grants[|states[i].grants|] == Grant(shard, value);
    } else {
      RunKeepsInv(c, states, steps, i);
    }
  }

  /** While time remains, only a release of this very lease ends it. */
  lemma StepKeepsLease(c: Config, s: State, step: Step, shard: Shard, value: LeaseValue, until: nat)
    requires Enabled(step) && step != ReleaseStep(shard, value) && LivesUntil(s, shard, value, until)
    requires s.clock < until <= s.clock + c.ttl(value.nodeId)
    ensures LivesUntil(Apply(c, s, step), shard, value, until)
  {
  }

  lemma {:induction false} LeaseHeld(
    c: Config, states: seq<State>, steps: seq<Step>, i: nat, j: nat, shard: Shard, value: LeaseValue, until: nat)
    requires IsRun(c, states, steps) && i <= j < |states| && LivesUntil(states[i], shard, value, until)
    requires forall m :: i <= m < j ==> steps[m] != ReleaseStep(shard, value)
    requires states[j].clock < until <= states[i].clock + c.ttl(value.nodeId)
    ensures LivesUntil(states[j], shard, value, until)
    decreases j - i
  {
    if i < j {
      assert FollowsAt(c, states, steps, j - 1);
      StepGrows(c, states[j - 1], steps[j - 1], shard);
      RunGrows(c, states, steps, i, j - 1, shard);
      LeaseHeld(c, states, steps, i, j - 1, shard, value, until);
      StepKeepsLease(c, states[j - 1], steps[j - 1], shard, value, until);
    }
  }

  /**
    A granted or renewed lease lasts its whole time to live. Unless it is released, it is the current lease of its
    shard at every moment before that time has passed, and its holder's requests pass the fence.
   */
  lemma LeaseLasts(
    c: Config, states: seq<State>, steps: seq<Step>, i: nat, j: nat, shard: Shard, value: LeaseValue)
    requires IsRun(c, states, steps) && i < j < |states| && Obtains(states, steps, i, shard, value)
    requires forall m :: i < m < j ==> steps[m] != ReleaseStep(shard, value)
    requires states[j].clock < states[i].clock + c.ttl(value.nodeId)
    ensures Current(states[j], shard) == Some(value)
    ensures value.nodeId != "" ==> FencePasses(states[j], shard, value.nodeId, value.epoch, value.generation)
  {
    ObtainedLives(c, states, steps, i, shard, value);
    LeaseHeld(c, states, steps, i + 1, j, shard, value, states[i].clock + c.ttl(value.nodeId));
  }

  /** At moment `m` a grant, or an attempted renewal while the target stays, is less than a time to live ago. */
  ghost predicate TendedAt(
    c: Config, states: seq<State>, steps: seq<Step>, i: nat, m: nat, shard: Shard, value: LeaseValue)
    requires m < |states| == |steps| + 1
  {
    exists r :: i <= r < m && states[m].clock < states[r].clock + c.ttl(value.nodeId) &&
                (r == i || Attempts(states, steps, r, shard, value))
  }

  predicate Attempts(states: seq<State>, steps: seq<Step>, r: nat, shard: Shard, value: LeaseValue)
    requires r < |steps| < |states|
  {
    steps[r] == RenewStep(value.nodeId, shard, value) && TargetOf(states[r], shard) == Some(value.nodeId)
  }

  /**
    A holder that keeps renewing in time never loses its lease: no matter what other nodes do, every one of its
    renewals succeeds, and it stays the current holder until it releases the lease or the shard's target moves.
   */
  lemma {:induction false} TendedLeaseIsKept(
    c: Config, states: seq<State>, steps: seq<Step>, i: nat, j: nat, shard: Shard, value: LeaseValue)
    requires IsRun(c, states, steps) && i < j < |states| && Obtains(states, steps, i, shard, value)
    requires forall m :: i < m < j ==> steps[m] != ReleaseStep(shard, value)
    requires forall m :: i < m <= j ==> TendedAt(c, states, steps, i, m, shard, value)
    ensures Current(states[j], shard) == Some(value)
    decreases j
  {
    assert TendedAt(c, states, steps, i, j, shard, value);
    var r :| i <= r < j && states[j].clock < states[r].clock + c.ttl(value.nodeId) &&
             (r == i || Attempts(states, steps, r, shard, value));
    if r > i {
      TendedLeaseIsKept(c, states, steps, i, r, shard, value);
      assert Renews(states, steps, r, shard, value);
    }
    LeaseLasts(c, states, steps, r, j, shard, value);
  }

  // ----- Ending -----

  predicate Outlived(s: State, shard: Shard, value: LeaseValue) {
    Current(s, shard) != Some(value) && value.epoch <= EpochOf(s, shard)
  }

  lemma StepKeepsOutlived(c: Config, s: State, step: Step, shard: Shard, value: LeaseValue)
    requires Outlived(s, shard, value)
    ensures Outlived(Apply(c, s, step), shard, value)
  {
  }

  lemma {:induction false} StaysOutlived(
    c: Config, states: seq<State>, steps: seq<Step>, i: nat, j: nat, shard: Shard, value: LeaseValue)
    requires IsRun(c, states, steps) && i <= j < |states| && Outlived(states[i], shard, value)
    ensures Outlived(states[j], shard, value)
    decreases j - i
  {
    if i < j {
      StaysOutlived(c, states, steps, i, j - 1, shard, value);
      assert FollowsAt(c, states, steps, j - 1);
      StepKeepsOutlived(c, states[j - 1], steps[j - 1], shard, value);
    }
  }

  /** A lease that is not current any more, because it expired or was released, never becomes current again. */
  lemma LostForGood(
    c: Config, states: seq<State>, steps: seq<Step>, i: nat, j: nat, shard: Shard, value: LeaseValue)
    requires IsRun(c, states, steps) && i <= j < |states| && Grant(shard, value) in states[i].grants
    requires Current(states[i], shard) != Some(value)
    ensures Current(states[j], shard) != Some(value)
    ensures forall epoch, generation ::
              FencePasses(states[j], shard, value.nodeId, epoch, generation) ==> epoch > value.epoch
  {
    RunKeepsInv(c, states, steps, i);
    RunKeepsInv(c, states, steps, j);
    var k :| 0 <= k < |states[i].grants| && states[i].grants[k] == Grant(shard, value);
    StaysOutlived(c, states, steps, i, j, shard, value);
    RunGrows(c, states, steps, i, j, shard);
    SameEpochSameLease(c, states, steps, j, k, shard, value);
  }

  lemma InOrder(s: State, j: nat, k: nat, shard: Shard)
    requires GrantsIncrease(s) && j < |s.grants| && k < |s.grants|
    ensures j < k && s.grants[j].shard == shard == s.grants[k].shard ==>
              s.grants[j].value.epoch < s.grants[k].value.epoch
  {
  }

  /** A current lease with the epoch of a grant is that grant. */
  lemma SameEpochSameLease(
    c: Config, states: seq<State>, steps: seq<Step>, j: nat, k: nat, shard: Shard, value: LeaseValue)
    requires IsRun(c, states, steps) && j < |states| && k < |states[j].grants|
    requires states[j].grants[k] == Grant(shard, value)
    ensures Current(states[j], shard).Some? ==>
              && Current(states[j], shard).value.epoch >= value.epoch
              && (Current(states[j], shard).value.epoch == value.epoch ==> Current(states[j], shard) == Some(value))
  {
    RunKeepsInv(c, states, steps, j);
    var s := states[j];
    if Current(s, shard).Some? {
      var lease := Current(s, shard).value;
      assert Grant(shard, lease) in s.grants;
      var m :| 0 <= m < |s.grants| && s.grants[m] == Grant(shard, lease);
      InOrder(s, k, m, shard);
      InOrder(s, m, k, shard);
    }
  }

  /** A release by its holder ends the lease at once. */
  lemma ReleaseEnds(c: Config, states: seq<State>, steps: seq<Step>, i: nat, j: nat, shard: Shard, value: LeaseValue)
    requires IsRun(c, states, steps) && i < j < |states| && steps[i] == ReleaseStep(shard, value)
    requires Grant(shard, value) in states[i].grants
    ensures Current(states[j], shard) != Some(value)
    ensures Current(states[i], shard) == Some(value) ==> Current(states[i + 1], shard).None?
    ensures Current(states[i], shard) != Some(value) ==> states[i + 1] == states[i]
  {
    assert FollowsAt(c, states, steps, i);
    LostForGood(c, states, steps, i + 1, j, shard, value);
  }

  predicate EndsAt(s: State, shard: Shard, value: LeaseValue, until: nat) {
    value.epoch <= EpochOf(s, shard) &&
    (shard in s.leases && s.leases[shard].value == value ==> s.leases[shard].expiresAt <= until)
  }

  lemma StepKeepsEnd(c: Config, s: State, step: Step, shard: Shard, value: LeaseValue, until: nat)
    requires Enabled(step) && EndsAt(s, shard, value, until) && step != RenewStep(value.nodeId, shard, value)
    ensures EndsAt(Apply(c, s, step), shard, value, until)
  {
  }

  lemma {:induction false} EndHeld(
    c: Config, states: seq<State>, steps: seq<Step>, i: nat, j: nat, shard: Shard, value: LeaseValue, until: nat)
    requires IsRun(c, states, steps) && i <= j < |states| && EndsAt(states[i], shard, value, until)
    requires forall m :: i <= m < j ==> steps[m] != RenewStep(value.nodeId, shard, value)
    ensures EndsAt(states[j], shard, value, until)
    decreases j - i
  {
    if i < j {
      EndHeld(c, states, steps, i, j - 1, shard, value, until);
      assert FollowsAt(c, states, steps, j - 1);
      StepKeepsEnd(c, states[j - 1], steps[j - 1], shard, value, until);
    }
  }

  /** A lease that is neither renewed again nor released is current exactly until its time to live has passed. */
  lemma LeaseEndsExactly(
    c: Config, states: seq<State>, steps: seq<Step>, i: nat, j: nat, shard: Shard, value: LeaseValue)
    requires IsRun(c, states, steps) && i < j < |states| && Obtains(states, steps, i, shard, value)
    requires forall m :: i < m < j ==>
               steps[m] != ReleaseStep(shard, value) && steps[m] != RenewStep(value.nodeId, shard, value)
    ensures Current(states[j], shard) == Some(value) <==> states[j].clock < states[i].clock + c.ttl(value.nodeId)
  {
    ObtainedLives(c, states, steps, i, shard, value);
    RunKeepsInv(c, states, steps, i + 1);
    EndHeld(c, states, steps, i + 1, j, shard, value, states[i].clock + c.ttl(value.nodeId));
    if states[j].clock < states[i].clock + c.ttl(value.nodeId) {
      LeaseLasts(c, states, steps, i, j, shard, value);
    }
  }

  // ----- The fence -----

  /** The newest lease granted on the shard. */
  predicate IsNewest(s: State, k: nat, shard: Shard) {
    && k < |s.grants| && s.grants[k].shard == shard
    && forall m :: k < m < |s.grants| ==> s.grants[m].shard != shard
  }

  /** A request passes exactly when it names node, epoch and generation of the newest grant, and that is live. */
  lemma FencePassesIff(
    c: Config, states: seq<State>, steps: seq<Step>, i: nat, shard: Shard, nodeId: Node, epoch: int, generation: int)
    requires IsRun(c, states, steps) && i < |states|
    ensures FencePasses(states[i], shard, nodeId, epoch, generation) <==>
              nodeId != "" &&
              exists k: nat :: IsNewest(states[i], k, shard) && IsLive(states[i], states[i].grants[k]) &&
                          states[i].grants[k].value.nodeId == nodeId && states[i].grants[k].value.epoch == epoch &&
                          states[i].grants[k].value.generation == generation
  {
    RunKeepsInv(c, states, steps, i);
    var s := states[i];
    if Current(s, shard).Some? {
      var lease := Current(s, shard).value;
      assert Grant(shard, lease) in s.grants;
      var k :| 0 <= k < |s.grants| && s.grants[k] == Grant(shard, lease);
      assert IsNewest(s, k, shard) by {
        forall m | k < m < |s.grants| ensures s.grants[m].shard != shard {
          InOrder(s, k, m, shard);
        }
      }
    }
  }

  /** The log of passed requests grows by the request checked exactly when it passes, and changes in no other way. */
  lemma PassesAreChecks(c: Config, states: seq<State>, steps: seq<Step>, i: nat)
    requires IsRun(c, states, steps) && i < |steps|
    ensures var (s, s', step) := (states[i], states[i + 1], steps[i]);
            if step.CheckStep? && FencePasses(s, step.shard, step.nodeId, step.epoch, step.generation)
            then s'.passes == s.passes + [Pass(step.shard, step.epoch)] && s' == s.(passes := s'.passes)
            else s'.passes == s.passes
  {
    assert FollowsAt(c, states, steps, i);
  }

  // ----- Targets and draining -----

  /** A node told to drain, or to stop draining, stays so until told otherwise. */
  lemma {:induction false} DrainingLasts(
    c: Config, states: seq<State>, steps: seq<Step>, i: nat, j: nat, node: Node, on: bool)
    requires IsRun(c, states, steps) && i < j < |states| && steps[i] == DrainStep(node, on)
    requires forall m :: i < m < j ==> steps[m] != DrainStep(node, !on)
    ensures (node in states[j].draining) == on
    decreases j - i
  {
    assert FollowsAt(c, states, steps, j - 1);
    if i < j - 1 {
      DrainingLasts(c, states, steps, i, j - 1, node, on);
      assert steps[j - 1] != DrainStep(node, !on);
    }
  }

  /** A draining node is granted no lease on any shard. */
  lemma {:induction false} DrainingGetsNoLease(
    c: Config, states: seq<State>, steps: seq<Step>, i: nat, j: nat, node: Node)
    requires IsRun(c, states, steps) && i < j < |states| && steps[i] == DrainStep(node, true)
    requires forall m :: i < m < j ==> steps[m] != DrainStep(node, false)
    ensures |states[i].grants| <= |states[j].grants|
    ensures forall k :: |states[i].grants| <= k < |states[j].grants| ==> states[j].grants[k].value.nodeId != node
    decreases j - i
  {
    assert FollowsAt(c, states, steps, j - 1);
    if i < j - 1 {
      DrainingGetsNoLease(c, states, steps, i, j - 1, node);
      DrainingLasts(c, states, steps, i, j - 1, node, true);
    }
  }

  /** The target set last is the target. */
  lemma {:induction false} TargetLasts(
    c: Config, states: seq<State>, steps: seq<Step>, i: nat, j: nat, shard: Shard, target: Option<Node>)
    requires IsRun(c, states, steps) && i < j < |states| && steps[i] == RetargetStep(shard, target)
    requires forall m :: i < m < j ==> !(steps[m].RetargetStep? && steps[m].shard == shard)
    ensures TargetOf(states[j], shard) == target
    decreases j - i
  {
    assert FollowsAt(c, states, steps, j - 1);
    if i < j - 1 {
      TargetLasts(c, states, steps, i, j - 1, shard, target);
      assert !(steps[j - 1].RetargetStep? && steps[j - 1].shard == shard);
    }
  }
}
