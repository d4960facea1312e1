/** What the successful writes of `Credentials` leave in the rows, over every interleaving. */
module CredentialEffects {
  import opened Wrappers
  import opened Credentials

  predicate NoChallenges(data: Mfa) {
    data.loginChallenge.None? && data.manageChallenge.None? && data.resetTicket.None?
  }

  /** The same second factors and the same reset flag; without MFA data there are none. */
  predicate SameFactors(before: Option<Versioned>, after: Mfa) {
    if before.Some?
    then after.factors == before.value.data.factors && after.resetRequired == before.value.data.resetRequired
    else after.factors == "" && !after.resetRequired
  }

  /** The row stands as the snapshot has it: stamp, and revision or its absence. */
  predicate Unmoved(row: Row, snapshot: Row) {
    && row.stamp == snapshot.stamp && row.mfa.Some? == snapshot.mfa.Some?
    && (row.mfa.Some? ==> row.mfa.value.revision == snapshot.mfa.value.revision)
  }

  /**
    A guarded write changes the rows exactly when the user's row still has the stamp and the revision of the snapshot
    and, unless it only revokes sessions, is active and has the snapshot's password.
   */
  lemma WriteTakesIff(stores: seq<Store>, steps: seq<Step>, n: nat)
    requires IsRun(stores, steps) && n < |steps| && steps[n].Guarded?
    ensures var (id, w, rows) := (steps[n].id, steps[n].w, stores[n].rows);
            && (Takes(stores, steps, n) <==>
                  && id in rows && Unmoved(rows[id], w.snapshot)
                  && (w.RevokeSessions? || (rows[id].active && rows[id].password == w.snapshot.password)))
            && (Takes(stores, steps, n) <==> stores[n + 1].rows != stores[n].rows)
  {
    assert FollowsAt(stores, steps, n);
    RunStaysKnown(stores, steps, n);
    if Takes(stores, steps, n) {
      assert RowKnown(stores[n].rows[steps[n].id], stores[n].used);
      WriteIsNew(stores[n], steps[n]);
      assert Passed(stores[n + 1], steps[n].id, stores[n].used);
    }
  }

  /** A successful step replaces one row by what is written from the row as it stands. */
  lemma TakenWrites(stores: seq<Store>, steps: seq<Step>, n: nat)
    requires IsRun(stores, steps) && n < |steps| && Takes(stores, steps, n)
    ensures var (row, step) := (stores[n].rows[steps[n].id], steps[n]);
            stores[n + 1].rows ==
            stores[n].rows[step.id := Written(row, step.w.(snapshot := row), step.revision, step.stamp)]
  {
    ActsOnCurrent(stores, steps, n);
    assert FollowsAt(stores, steps, n);
  }

  /** A password change: the new password and a new stamp and revision, no challenge left, the factors kept. */
  lemma PasswordIsChanged(stores: seq<Store>, steps: seq<Step>, n: nat)
    requires IsRun(stores, steps) && n < |steps| && Takes(stores, steps, n) && steps[n].w.UpdatePassword?
    ensures var (id, step) := (steps[n].id, steps[n]);
            && OnlyCredentials(stores[n].rows, stores[n + 1].rows, id)
            && (var (row, row') := (stores[n].rows[id], stores[n + 1].rows[id]);
                && row'.password == Some(step.w.password)
                && row'.stamp == Some(step.stamp) && row'.stamp != row.stamp
                && row'.mfa.Some? && row'.mfa.value.revision == step.revision
                && NoChallenges(row'.mfa.value.data) && SameFactors(row.mfa, row'.mfa.value.data))
  {
    TakenWrites(stores, steps, n);
    StampIsNew(stores, steps, n);
  }

  /** A revocation: a new stamp, no challenge left, password and factors kept, and no MFA data where there was none. */
  lemma SessionsAreRevoked(stores: seq<Store>, steps: seq<Step>, n: nat)
    requires IsRun(stores, steps) && n < |steps| && Takes(stores, steps, n) && steps[n].w.RevokeSessions?
    ensures var (id, step) := (steps[n].id, steps[n]);
            && OnlyCredentials(stores[n].rows, stores[n + 1].rows, id)
            && (var (row, row') := (stores[n].rows[id], stores[n + 1].rows[id]);
                && row'.password == row.password
                && row'.stamp == Some(step.stamp) && row'.stamp != row.stamp
                && row'.mfa.Some? == row.mfa.Some?
                && (row.mfa.Some? ==>
                      && row'.mfa.value.revision == step.revision
                      && NoChallenges(row'.mfa.value.data) && SameFactors(row.mfa, row'.mfa.value.data)))
  {
    TakenWrites(stores, steps, n);
    StampIsNew(stores, steps, n);
  }

  /** An MFA update: exactly the given data under a new revision; the sessions go on unless they are revoked. */
  lemma MfaIsUpdated(stores: seq<Store>, steps: seq<Step>, n: nat)
    requires IsRun(stores, steps) && n < |steps| && Takes(stores, steps, n) && steps[n].w.UpdateMfa?
    ensures var (id, step) := (steps[n].id, steps[n]);
            && OnlyCredentials(stores[n].rows, stores[n + 1].rows, id)
            && (var (row, row') := (stores[n].rows[id], stores[n + 1].rows[id]);
                && row'.password == row.password
                && row'.mfa == Some(Versioned(step.revision, step.w.data))
                && row'.stamp == (if step.w.revoke then Some(step.stamp) else row.stamp)
                && (step.w.revoke ==> row'.stamp != row.stamp))
  {
    TakenWrites(stores, steps, n);
    StampIsNew(stores, steps, n);
  }

  lemma StampIsNew(stores: seq<Store>, steps: seq<Step>, n: nat)
    requires IsRun(stores, steps) && n < |steps| && Takes(stores, steps, n)
    ensures stores[n].rows[steps[n].id].stamp != Some(steps[n].stamp)
  {
    assert FollowsAt(stores, steps, n);
    RunStaysKnown(stores, steps, n);
    assert RowKnown(stores[n].rows[steps[n].id], stores[n].used);
  }

  // ----- What lasts -----

  /** Step `n` may give the user another password, or take the row away. */
  predicate TouchesPassword(step: Step, id: UserId) {
    match step
    case Guarded(other, w, _, _) => other == id && w.UpdatePassword?
    case Insert(other, _, _, _) => other == id
    case Remove(other) => other == id
    case _ => false
  }

  lemma StepKeepsPassword(s: Store, step: Step, id: UserId)
    requires id in s.rows && !TouchesPassword(step, id)
    ensures id in Apply(s, step).rows && Apply(s, step).rows[id].password == s.rows[id].password
  {
  }

  /** A changed password is the user's password until it is changed again, whatever else is written to the row. */
  lemma {:induction false} PasswordLasts(stores: seq<Store>, steps: seq<Step>, n: nat, j: nat)
    requires IsRun(stores, steps) && n < j < |stores| && Takes(stores, steps, n) && steps[n].w.UpdatePassword?
    requires forall m :: n < m < j ==> !TouchesPassword(steps[m], steps[n].id)
    ensures steps[n].id in stores[j].rows && stores[j].rows[steps[n].id].password == Some(steps[n].w.password)
    decreases j
  {
    assert FollowsAt(stores, steps, j - 1);
    if j == n + 1 {
      PasswordIsChanged(stores, steps, n);
    } else {
      PasswordLasts(stores, steps, n, j - 1);
      assert !TouchesPassword(steps[j - 1], steps[n].id);
      StepKeepsPassword(stores[j - 1], steps[j - 1], steps[n].id);
    }
  }

  predicate Revokes(w: Write) {
    w.RevokeSessions? || w.UpdatePassword? || w.revoke
  }

  /** The stamp is out of use for the user, and cannot be drawn again. */
  predicate OutOfUse(s: Store, id: UserId, stamp: Uuid) {
    stamp in s.used && (id in s.rows ==> s.rows[id].stamp != Some(stamp))
  }

  lemma StepKeepsOutOfUse(s: Store, step: Step, id: UserId, stamp: Uuid)
    requires Enabled(s, step) && OutOfUse(s, id, stamp)
    ensures OutOfUse(Apply(s, step), id, stamp)
  {
  }

  lemma {:induction false} StaysOutOfUse(stores: seq<Store>, steps: seq<Step>, i: nat, j: nat, id: UserId, stamp: Uuid)
    requires IsRun(stores, steps) && i <= j < |stores| && OutOfUse(stores[i], id, stamp)
    ensures OutOfUse(stores[j], id, stamp)
    decreases j - i
  {
    if i < j {
      StaysOutOfUse(stores, steps, i, j - 1, id, stamp);
      assert FollowsAt(stores, steps, j - 1);
      StepKeepsOutOfUse(stores[j - 1], steps[j - 1], id, stamp);
    }
  }

  /** Sessions that were revoked, on their own or by a password change, never become valid again. */
  lemma RevokedForGood(stores: seq<Store>, steps: seq<Step>, n: nat, j: nat, stamp: Uuid)
    requires IsRun(stores, steps) && n < j < |stores| && Takes(stores, steps, n) && Revokes(steps[n].w)
    requires stores[n].rows[steps[n].id].stamp == Some(stamp)
    ensures steps[n].id in stores[j].rows ==> stores[j].rows[steps[n].id].stamp != Some(stamp)
  {
    assert FollowsAt(stores, steps, n);
    RunStaysKnown(stores, steps, n);
    assert RowKnown(stores[n].rows[steps[n].id], stores[n].used);
    if steps[n].w.UpdateMfa? {
      MfaIsUpdated(stores, steps, n);
    } else if steps[n].w.RevokeSessions? {
      SessionsAreRevoked(stores, steps, n);
    } else {
      PasswordIsChanged(stores, steps, n);
    }
    StaysOutOfUse(stores, steps, n + 1, j, steps[n].id, stamp);
  }

  /** Without a write that revokes them, an insertion or a removal, the user's sessions stay valid. */
  lemma {:induction false} SessionsLast(stores: seq<Store>, steps: seq<Step>, i: nat, j: nat, id: UserId)
    requires IsRun(stores, steps) && i <= j < |stores| && id in stores[i].rows
    requires forall m :: i <= m < j ==> !EndsSessions(steps[m], id)
    ensures id in stores[j].rows && stores[j].rows[id].stamp == stores[i].rows[id].stamp
    decreases j - i
  {
    if i < j {
      SessionsLast(stores, steps, i, j - 1, id);
      assert FollowsAt(stores, steps, j - 1);
      assert !EndsSessions(steps[j - 1], id);
    }
  }

  predicate EndsSessions(step: Step, id: UserId) {
    match step
    case Guarded(other, w, _, _) => other == id && Revokes(w)
    case Insert(other, _, _, _) => other == id
    case Remove(other) => other == id
    case _ => false
  }
}
