/**
  Compare-and-swap on credential rows, backend/open_webui/models/auths.py. Each request reads a snapshot
  at some point and writes it back, guarded, at a later one; any number of requests interleave.
 */
module Credentials {
  import opened Wrappers

  type UserId = string

  /** A UUID; `uuid4` never returns one that was seen before. */
  type Uuid = nat

  /** `MfaData` without its revision; `factors` stands for secret, last step, recovery hashes, limits. */
  datatype Mfa = Mfa(
    factors: string, resetRequired: bool,
    loginChallenge: Option<string>, manageChallenge: Option<string>, resetTicket: Option<string>)

  datatype Versioned = Versioned(revision: Uuid, data: Mfa)

  datatype Row = Row(active: bool, email: string, password: Option<string>, stamp: Option<Uuid>, mfa: Option<Versioned>)

  datatype Store = Store(rows: map<UserId, Row>, used: set<Uuid>)

  const NO_MFA := Mfa("", false, None, None, None)

  function RevisionOf(row: Row): Option<Uuid> {
    if row.mfa.Some? then Some(row.mfa.value.revision) else None
  }

  function WithoutChallenges(data: Mfa): Mfa {
    data.(loginChallenge := None, manageChallenge := None, resetTicket := None)
  }

  /** The stamp and the revision are still those of the snapshot. */
  predicate SamePair(row: Row, snapshot: Row) {
    row.stamp == snapshot.stamp && RevisionOf(row) == RevisionOf(snapshot)
  }

  /** The WHERE clause of `update_mfa_by_id`. */
  predicate MfaGuard(row: Row, snapshot: Row) {
    row.active && row.password == snapshot.password && SamePair(row, snapshot)
  }

  // ----- The writes -----

  datatype Write =
    | UpdateMfa(snapshot: Row, data: Mfa, revoke: bool)
    | RevokeSessions(snapshot: Row)
    | UpdatePassword(snapshot: Row, password: string)

  predicate Succeeds(rows: map<UserId, Row>, id: UserId, w: Write) {
    id in rows && if w.RevokeSessions? then SamePair(rows[id], w.snapshot) else MfaGuard(rows[id], w.snapshot)
  }

  /** What the guarded UPDATE puts in place; everything but the email and the active flag comes from the snapshot. */
  function Written(row: Row, w: Write, revision: Uuid, stamp: Uuid): Row {
    match w
    case UpdateMfa(snapshot, data, revoke) =>
      row.(mfa := Some(Versioned(revision, data)), stamp := if revoke then Some(stamp) else snapshot.stamp)
    case RevokeSessions(snapshot) =>
      row.(stamp := Some(stamp),
           mfa := if snapshot.mfa.None? then None
                  else Some(Versioned(revision, WithoutChallenges(snapshot.mfa.value.data))))
    case UpdatePassword(snapshot, password) =>
      var data := if snapshot.mfa.Some? then snapshot.mfa.value.data else NO_MFA;
      row.(mfa := Some(Versioned(revision, WithoutChallenges(data))), stamp := Some(stamp), password := Some(password))
  }

  datatype Step =
    | Guarded(id: UserId, w: Write, revision: Uuid, stamp: Uuid)
    | Insert(id: UserId, email: string, password: string, stamp: Uuid)
    | SetEmail(id: UserId, email: string)
    | SetActive(id: UserId, active: bool)
    | Remove(id: UserId)

  /** UUIDs drawn by a step are new; so is the id of an inserted row. */
  predicate Enabled(s: Store, step: Step) {
    match step
    case Guarded(_, _, revision, stamp) => revision !in s.used && stamp !in s.used && revision != stamp
    case Insert(id, _, _, stamp) => id !in s.rows && stamp !in s.used
    case _ => true
  }

  function Apply(s: Store, step: Step): Store {
    match step
    case Guarded(id, w, revision, stamp) =>
      Store(if Succeeds(s.rows, id, w) then s.rows[id := Written(s.rows[id], w, revision, stamp)] else s.rows,
            s.used + {revision, stamp})
    case Insert(id, email, password, stamp) =>
      Store(s.rows[id := Row(true, email, Some(password), Some(stamp), None)], s.used + {stamp})
    case SetEmail(id, email) => if id in s.rows then s.(rows := s.rows[id := s.rows[id].(email := email)]) else s
    case SetActive(id, active) => if id in s.rows then s.(rows := s.rows[id := s.rows[id].(active := active)]) else s
    case Remove(id) => s.(rows := s.rows - {id})
  }

  // ----- Runs -----

  predicate RowKnown(row: Row, used: set<Uuid>) {
    (row.stamp.Some? ==> row.stamp.value in used) && (row.mfa.Some? ==> row.mfa.value.revision in used)
  }

  predicate Known(s: Store) {
    forall id :: id in s.rows ==> RowKnown(s.rows[id], s.used)
  }

  ghost predicate FollowsAt(stores: seq<Store>, steps: seq<Step>, n: nat)
    requires n < |steps| && |stores| == |steps| + 1
  {
    Enabled(stores[n], steps[n]) && stores[n + 1] == Apply(stores[n], steps[n])
  }

  /** The credentials in the snapshot of a guarded write are those of this or an earlier moment; its email
      may be older still, as in the copy that a successful write returns. */
  ghost predicate ReadBefore(stores: seq<Store>, n: nat, id: UserId, snapshot: Row)
    requires n < |stores|
  {
    exists m :: 0 <= m <= n && Holds(stores[m], id, snapshot)
  }

  ghost predicate IsRun(stores: seq<Store>, steps: seq<Step>) {
    && |stores| == |steps| + 1
    && Known(stores[0])
    && (forall n :: 0 <= n < |steps| ==> FollowsAt(stores, steps, n))
    && (forall n :: 0 <= n < |steps| && steps[n].Guarded? ==> ReadBefore(stores, n, steps[n].id, steps[n].w.snapshot))
  }

  /** The credentials proper. */
  predicate SameCredentials(a: Row, b: Row) {
    a.password == b.password && a.stamp == b.stamp && a.mfa == b.mfa
  }

  predicate Holds(s: Store, id: UserId, row: Row) {
    id in s.rows && SameCredentials(s.rows[id], row)
  }

  /** The row carries a stamp or a revision from after `used`, or is gone. */
  predicate Passed(s: Store, id: UserId, used: set<Uuid>) {
    id in s.rows ==> !RowKnown(s.rows[id], used)
  }

  /** One step either leaves a user's credentials alone or moves them past every UUID seen so far. */
  lemma StepMoves(s: Store, step: Step, id: UserId)
    requires Enabled(s, step)
    ensures id in s.rows ==> Holds(Apply(s, step), id, s.rows[id]) || Passed(Apply(s, step), id, s.used)
    ensures s.used <= Apply(s, step).used
  {
  }

  lemma StepStaysPassed(s: Store, step: Step, id: UserId, used: set<Uuid>)
    requires Enabled(s, step) && used <= s.used && Passed(s, id, used)
    ensures Passed(Apply(s, step), id, used)
  {
  }

  lemma StepStaysKnown(s: Store, step: Step, id: UserId)
    requires Enabled(s, step) && (id in s.rows ==> RowKnown(s.rows[id], s.used))
    requires step.Guarded? && Succeeds(s.rows, step.id, step.w) ==> RowKnown(s.rows[step.id], s.used)
    ensures id in Apply(s, step).rows ==> RowKnown(Apply(s, step).rows[id], Apply(s, step).used)
  {
  }

  lemma {:induction false} RunStaysKnown(stores: seq<Store>, steps: seq<Step>, n: nat)
    requires IsRun(stores, steps) && n < |stores|
    ensures Known(stores[n])
  {
    if n > 0 {
      RunStaysKnown(stores, steps, n - 1);
      assert FollowsAt(stores, steps, n - 1);
      forall id | id in stores[n].rows ensures RowKnown(stores[n].rows[id], stores[n].used) {
        StepStaysKnown(stores[n - 1], steps[n - 1], id);
      }
    }
  }

  lemma {:induction false} UsedGrows(stores: seq<Store>, steps: seq<Step>, i: nat, j: nat)
    requires IsRun(stores, steps) && i <= j < |stores|
    ensures stores[i].used <= stores[j].used
    decreases j - i
  {
    if i < j {
      UsedGrows(stores, steps, i, j - 1);
      assert FollowsAt(stores, steps, j - 1);
    }
  }

  lemma {:induction false} PassedLasts(
    stores: seq<Store>, steps: seq<Step>, i: nat, j: nat, id: UserId, used: set<Uuid>)
    requires IsRun(stores, steps) && i <= j < |stores| && used <= stores[i].used && Passed(stores[i], id, used)
    ensures Passed(stores[j], id, used)
    decreases j - i
  {
    if i < j {
      PassedLasts(stores, steps, i, j - 1, id, used);
      UsedGrows(stores, steps, i, j - 1);
      assert FollowsAt(stores, steps, j - 1);
      StepStaysPassed(stores[j - 1], steps[j - 1], id, used);
    }
  }

  lemma {:induction false} SameOrPassed(stores: seq<Store>, steps: seq<Step>, i: nat, j: nat, id: UserId)
    requires IsRun(stores, steps) && i <= j < |stores| && id in stores[i].rows
    ensures Holds(stores[j], id, stores[i].rows[id]) || Passed(stores[j], id, stores[i].used)
    decreases j - i
  {
    if i < j {
      SameOrPassed(stores, steps, i, j - 1, id);
      UsedGrows(stores, steps, i, j - 1);
      assert FollowsAt(stores, steps, j - 1);
      if Passed(stores[j - 1], id, stores[i].used) {
        StepStaysPassed(stores[j - 1], steps[j - 1], id, stores[i].used);
      } else {
        StepMoves(stores[j - 1], steps[j - 1], id);
      }
    }
  }

  /** The pair of session stamp and MFA revision determines the credentials: when it is the same at two
      moments of a run, password and MFA data are the same then and at every moment between. */
  lemma PairDetermines(stores: seq<Store>, steps: seq<Step>, i: nat, k: nat, j: nat, id: UserId)
    requires IsRun(stores, steps) && i <= k <= j < |stores|
    requires id in stores[i].rows && id in stores[j].rows && SamePair(stores[j].rows[id], stores[i].rows[id])
    ensures Holds(stores[k], id, stores[i].rows[id]) && Holds(stores[j], id, stores[i].rows[id])
  {
    RunStaysKnown(stores, steps, i);
    assert RowKnown(stores[i].rows[id], stores[i].used);
    SameOrPassed(stores, steps, i, k, id);
    SameOrPassed(stores, steps, i, j, id);
    UsedGrows(stores, steps, i, k);
    if Passed(stores[k], id, stores[i].used) {
      PassedLasts(stores, steps, k, j, id, stores[i].used);
    }
  }

  /** A guarded write takes effect at step `n`. */
  predicate Takes(stores: seq<Store>, steps: seq<Step>, n: nat)
    requires n < |steps| <= |stores|
  {
    steps[n].Guarded? && Succeeds(stores[n].rows, steps[n].id, steps[n].w)
  }

  /** No lost update: a compare-and-swap that succeeds had read the current credentials, whenever it read
      them, and nobody changed them in between. */
  lemma NoLostUpdate(stores: seq<Store>, steps: seq<Step>, m: nat, k: nat, n: nat)
    requires IsRun(stores, steps) && m <= k <= n < |steps| && Takes(stores, steps, n)
    requires Holds(stores[m], steps[n].id, steps[n].w.snapshot)
    ensures Holds(stores[k], steps[n].id, steps[n].w.snapshot) && Holds(stores[n], steps[n].id, steps[n].w.snapshot)
  {
    PairDetermines(stores, steps, m, k, n, steps[n].id);
  }

  /** So what it writes is what it would have computed from the row itself. */
  lemma ActsOnCurrent(stores: seq<Store>, steps: seq<Step>, n: nat)
    requires IsRun(stores, steps) && n < |steps| && Takes(stores, steps, n)
    ensures var (row, step) := (stores[n].rows[steps[n].id], steps[n]);
            step.id in stores[n + 1].rows &&
            stores[n + 1].rows[step.id] == Written(row, step.w.(snapshot := row), step.revision, step.stamp)
  {
    var step := steps[n];
    assert ReadBefore(stores, n, step.id, step.w.snapshot);
    var m :| 0 <= m <= n && Holds(stores[m], step.id, step.w.snapshot);
    NoLostUpdate(stores, steps, m, n, n);
    assert FollowsAt(stores, steps, n);
  }

  lemma WriteIsNew(s: Store, step: Step)
    requires Enabled(s, step) && step.Guarded? && Succeeds(s.rows, step.id, step.w)
    ensures Passed(Apply(s, step), step.id, s.used)
  {
  }

  /** A snapshot taken before a successful write to the row, be it a revocation, a password change or a
      factor change, can never be written back. */
  lemma StaleSnapshotFails(stores: seq<Store>, steps: seq<Step>, m: nat, k: nat, n: nat)
    requires IsRun(stores, steps) && m <= k < n < |steps| && Takes(stores, steps, k)
    requires steps[n].Guarded? && steps[n].id == steps[k].id && Holds(stores[m], steps[n].id, steps[n].w.snapshot)
    ensures !Takes(stores, steps, n)
  {
    var id := steps[k].id;
    RunStaysKnown(stores, steps, m);
    assert RowKnown(stores[m].rows[id], stores[m].used);
    UsedGrows(stores, steps, m, k);
    assert FollowsAt(stores, steps, k);
    WriteIsNew(stores[k], steps[k]);
    assert Passed(stores[k + 1], id, stores[m].used);
    UsedGrows(stores, steps, m, k + 1);
    PassedLasts(stores, steps, k + 1, n, id, stores[m].used);
  }

  /** No other user's row is touched, and of this one neither the email nor the active flag. */
  ghost predicate OnlyCredentials(rows: map<UserId, Row>, rows': map<UserId, Row>, id: UserId) {
    && rows'.Keys == rows.Keys && id in rows
    && (forall other :: other in rows && other != id ==> rows'[other] == rows[other])
    && rows'[id].email == rows[id].email && rows'[id].active == rows[id].active
  }

  // ----- The table, changed in place -----

  datatype PasswordResult = NoSuchUser | Changed | Conflict

  class AuthsTable {
    var rows: map<UserId, Row>

    constructor (rows: map<UserId, Row>)
      ensures this.rows == rows
    {
      this.rows := rows;
    }

    /** The returned snapshot is the row as it now stands, up to its email. */
    method UpdateMfaById(id: UserId, auth: Row, data: Mfa, revoke: bool, revision: Uuid, stamp: Uuid)
      returns (updated: Option<Row>)
      modifies this
      ensures updated.Some? <==>
                && id in old(rows) && old(rows)[id].active && old(rows)[id].password == auth.password
                && old(rows)[id].stamp == auth.stamp && old(rows)[id].mfa.Some? == auth.mfa.Some?
                && (auth.mfa.Some? ==> old(rows)[id].mfa.value.revision == auth.mfa.value.revision)
      ensures updated.None? ==> rows == old(rows)
      ensures updated.Some? ==>
                && OnlyCredentials(old(rows), rows, id)
                && rows[id].mfa == Some(Versioned(revision, data))
                && rows[id].stamp == (if revoke then Some(stamp) else old(rows)[id].stamp)
                && rows[id].password == old(rows)[id].password
      ensures updated.Some? ==>
                rows == old(rows)[id := Written(old(rows)[id], UpdateMfa(auth, data, revoke), revision, stamp)]
      ensures updated.Some? && auth.active ==>
                Holds(Store(rows, {}), id, updated.value) && MfaGuard(rows[id], updated.value)
    {
      var mfa := Versioned(revision, data);
      var newStamp := if revoke then Some(stamp) else auth.stamp;
      var expected := if auth.mfa.Some? then Some(auth.mfa.value.revision) else None;
      if id in rows && rows[id].active && rows[id].password == auth.password && rows[id].stamp == auth.stamp &&
         (if rows[id].mfa.Some? then Some(rows[id].mfa.value.revision) else None) == expected
      {
        rows := rows[id := rows[id].(mfa := Some(mfa), stamp := newStamp)];
        return Some(auth.(mfa := Some(mfa), stamp := newStamp));
      }
      return None;
    }

    /** With a snapshot read in the same transaction, `auth`; false when there is no row to read. */
    method RevokeSessionsByUserId(id: UserId, auth: Option<Row>, revision: Uuid, stamp: Uuid)
      returns (r: PasswordResult)
      modifies this
      ensures auth.None? ==> r == NoSuchUser && rows == old(rows)
      ensures auth.Some? ==> r != NoSuchUser
      ensures r == Changed <==>
                && auth.Some? && id in old(rows) && old(rows)[id].stamp == auth.value.stamp
                && old(rows)[id].mfa.Some? == auth.value.mfa.Some?
                && (auth.value.mfa.Some? ==> old(rows)[id].mfa.value.revision == auth.value.mfa.value.revision)
      ensures r == Conflict ==> rows == old(rows)
      ensures r == Changed ==>
                && OnlyCredentials(old(rows), rows, id)
                && rows[id].stamp == Some(stamp) && rows[id].password == old(rows)[id].password
                && rows[id].mfa.Some? == old(rows)[id].mfa.Some?
                && (rows[id].mfa.Some? ==>
                      rows[id].mfa == Some(Versioned(revision, Mfa(auth.value.mfa.value.data.factors,
                                                                   auth.value.mfa.value.data.resetRequired,
                                                                   None, None, None))))
      ensures r == Changed ==>
                rows == old(rows)[id := Written(old(rows)[id], RevokeSessions(auth.value), revision, stamp)]
    {
      if auth.None? {
        return NoSuchUser;
      }
      var snapshot := auth.value;
      if id !in rows || rows[id].stamp != snapshot.stamp || RevisionOf(rows[id]) != RevisionOf(snapshot) {
        return Conflict;
      }
      var cleared := if snapshot.mfa.None? then None
                     else Some(Versioned(revision, WithoutChallenges(snapshot.mfa.value.data)));
      rows := rows[id := rows[id].(stamp := Some(stamp), mfa := cleared)];
      return Changed;
    }

    /** `current` is the caller's snapshot, or else the row is read here; a conflict rolls everything back. */
    method UpdateUserPasswordById(id: UserId, password: string, current: Option<Row>, revision: Uuid, stamp: Uuid)
      returns (r: PasswordResult)
      modifies this
      ensures r == NoSuchUser <==> current.None? && id !in old(rows)
      ensures r == Changed ==>
                && OnlyCredentials(old(rows), rows, id)
                && rows[id].password == Some(password) && rows[id].stamp == Some(stamp)
      ensures r != NoSuchUser ==>
                var auth := if current.Some? then current.value else old(rows)[id];
                && (r == Changed <==>
                      && id in old(rows) && old(rows)[id].active && old(rows)[id].password == auth.password
                      && old(rows)[id].stamp == auth.stamp && old(rows)[id].mfa.Some? == auth.mfa.Some?
                      && (auth.mfa.Some? ==> old(rows)[id].mfa.value.revision == auth.mfa.value.revision))
                && (r == Changed ==>
                      && rows[id].mfa == Some(Versioned(revision,
                                                        if auth.mfa.None? then Mfa("", false, None, None, None)
                                                        else Mfa(auth.mfa.value.data.factors,
                                                                 auth.mfa.value.data.resetRequired, None, None, None)))
                      && rows == old(rows)[id := Written(old(rows)[id], UpdatePassword(auth, password), revision,
                                                         stamp)])
      ensures r != Changed ==> rows == old(rows)
    {
      if current.None? && id !in rows {
        return NoSuchUser;
      }
      var auth := if current.Some? then current.value else rows[id];
      var data := if auth.mfa.Some? then auth.mfa.value.data else NO_MFA;
      var updated := UpdateMfaById(id, auth, WithoutChallenges(data), true, revision, stamp);
      if updated.None? {
        return Conflict;
      }
      rows := rows[id := rows[id].(password := Some(password))];
      return Changed;
    }
  }
}
