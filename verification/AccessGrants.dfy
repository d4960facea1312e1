/** Access grants, backend/open_webui/models/access_grants.py: the two formats, and who loses access. */
module AccessGrants {
  import opened Wrappers

  /** A grant on one resource; its kind and id are fixed by the caller. */
  datatype Grant = Grant(principalType: string, principalId: string, permission: string)

  datatype Ids = Ids(groupIds: seq<string>, userIds: seq<string>)

  /** The old format: `None`, or a dictionary with either entry missing or empty (`None` here). */
  datatype AccessControl = Public | Restricted(read: Option<Ids>, write: Option<Ids>)

  const PRIVATE := Restricted(None, None)

  const PUBLIC_READ := Grant("user", "*", "read")

  const EMPTY := Ids([], [])

  function IdsOf(ids: Option<Ids>): Ids {
    if ids.Some? then ids.value else EMPTY
  }

  // ----- To grants -----

  function Grants(principalType: string, ids: seq<string>, permission: string): seq<Grant> {
    seq(|ids|, i requires 0 <= i < |ids| => Grant(principalType, ids[i], permission))
  }

  function PermissionGrants(ids: Option<Ids>, permission: string): seq<Grant> {
    Grants("group", IdsOf(ids).groupIds, permission) + Grants("user", IdsOf(ids).userIds, permission)
  }

  function ToGrants(resourceType: string, control: AccessControl): seq<Grant> {
    match control
    case Public => if resourceType != "file" then [PUBLIC_READ] else []
    case Restricted(read, write) => PermissionGrants(read, "read") + PermissionGrants(write, "write")
  }

  // ----- From grants -----

  function AddOnce(list: seq<string>, id: string): seq<string> {
    if id in list then list else list + [id]
  }

  /** Duplicates dropped. */
  function Dedup(list: seq<string>): seq<string> {
    if list == [] then [] else AddOnce(Dedup(list[..|list| - 1]), list[|list| - 1])
  }

  /** The principals of one type with one permission, in order; the public reader is never listed. */
  function Principals(grants: seq<Grant>, principalType: string, permission: string): seq<string> {
    if grants == [] then []
    else
      var last := grants[|grants| - 1];
      Principals(grants[..|grants| - 1], principalType, permission) +
      if last != PUBLIC_READ && last.principalType == principalType && last.permission == permission
      then [last.principalId] else []
  }

  function Collected(grants: seq<Grant>, permission: string): Ids {
    Ids(Dedup(Principals(grants, "group", permission)), Dedup(Principals(grants, "user", permission)))
  }

  function FromGrants(grants: seq<Grant>): AccessControl {
    if grants == [] then PRIVATE
    else if PUBLIC_READ in grants then Public
    else Restricted(Some(Collected(grants, "read")), Some(Collected(grants, "write")))
  }

  // ----- Dropping duplicates -----

  predicate NoDuplicates(list: seq<string>) {
    forall i, j :: 0 <= i < j < |list| ==> list[i] != list[j]
  }

  function FirstIndex(list: seq<string>, id: string): (i: nat)
    requires id in list
    ensures i < |list| && list[i] == id && forall j :: 0 <= j < i ==> list[j] != id
  {
    if list[0] == id then 0 else 1 + FirstIndex(list[1..], id)
  }

  lemma FirstIndexPush(list: seq<string>, id: string, last: string)
    requires id in list
    ensures FirstIndex(list + [last], id) == FirstIndex(list, id)
  {
    var longer := list + [last];
    assert longer[FirstIndex(list, id)] == id;
    assert forall j :: 0 <= j < |list| ==> longer[j] == list[j];
  }

  /** Same members, each once, in the order of their first occurrences. */
  lemma {:induction false} DedupKeepsFirsts(list: seq<string>)
    ensures NoDuplicates(Dedup(list)) && forall id :: id in Dedup(list) <==> id in list
    ensures forall i, j :: 0 <= i < j < |Dedup(list)| ==>
                             FirstIndex(list, Dedup(list)[i]) < FirstIndex(list, Dedup(list)[j])
  {
    if list != [] {
      var last, init := list[|list| - 1], list[..|list| - 1];
      DedupKeepsFirsts(init);
      assert list == init + [last];
      forall id | id in init ensures FirstIndex(list, id) == FirstIndex(init, id) {
        FirstIndexPush(init, id, last);
      }
    }
  }

  lemma {:induction false} DedupIdentity(list: seq<string>)
    requires NoDuplicates(list)
    ensures Dedup(list) == list
  {
    if list != [] {
      var last, init := list[|list| - 1], list[..|list| - 1];
      DedupIdentity(init);
      assert list == init + [last];
    }
  }

  // ----- There and back -----

  lemma {:induction false} PrincipalsConcat(a: seq<Grant>, b: seq<Grant>, principalType: string, permission: string)
    ensures Principals(a + b, principalType, permission)
         == Principals(a, principalType, permission) + Principals(b, principalType, permission)
    decreases |b|
  {
    if b == [] {
      assert a + b == a;
    } else {
      var last, init := b[|b| - 1], b[..|b| - 1];
      assert (a + b)[..|a + b| - 1] == a + init && (a + b)[|a + b| - 1] == last;
      PrincipalsConcat(a, init, principalType, permission);
    }
  }

  lemma {:induction false} PrincipalsOfGrants(
    kind: string, ids: seq<string>, perm: string, principalType: string, permission: string)
    requires PUBLIC_READ !in Grants(kind, ids, perm)
    ensures Principals(Grants(kind, ids, perm), principalType, permission)
         == if kind == principalType && perm == permission then ids else []
    decreases |ids|
  {
    if ids != [] {
      var init := ids[..|ids| - 1];
      var grants := Grants(kind, ids, perm);
      assert grants[..|grants| - 1] == Grants(kind, init, perm);
      assert grants[|grants| - 1] == Grant(kind, ids[|ids| - 1], perm);
      assert grants[|grants| - 1] in grants;
      PrincipalsOfGrants(kind, init, perm, principalType, permission);
      assert init + [ids[|ids| - 1]] == ids;
    }
  }

  predicate NamesNobody(control: AccessControl) {
    control.Restricted? && IdsOf(control.read) == EMPTY && IdsOf(control.write) == EMPTY
  }

  predicate HasWildcardReader(control: AccessControl) {
    control.Restricted? && "*" in IdsOf(control.read).userIds
  }

  function DedupIds(ids: Ids): Ids {
    Ids(Dedup(ids.groupIds), Dedup(ids.userIds))
  }

  lemma NoPublicRead(control: AccessControl)
    requires control.Restricted?
    ensures PUBLIC_READ in ToGrants("", control) <==> HasWildcardReader(control)
  {
    var read, write := IdsOf(control.read), IdsOf(control.write);
    var users := Grants("user", read.userIds, "read");
    if HasWildcardReader(control) {
      var i :| 0 <= i < |read.userIds| && read.userIds[i] == "*";
      assert users[i] == PUBLIC_READ;
      assert PUBLIC_READ in users;
    }
    if PUBLIC_READ in ToGrants("", control) {
      assert PUBLIC_READ !in Grants("group", read.groupIds, "read");
      assert PUBLIC_READ !in Grants("group", write.groupIds, "write");
      assert PUBLIC_READ !in Grants("user", write.userIds, "write");
      assert PUBLIC_READ in users;
      var i :| 0 <= i < |users| && users[i] == PUBLIC_READ;
      assert read.userIds[i] == "*";
    }
  }

  function ListOf(ids: Ids, principalType: string): seq<string> {
    if principalType == "group" then ids.groupIds else if principalType == "user" then ids.userIds else []
  }

  lemma PrincipalsOfPermission(ids: Option<Ids>, perm: string, principalType: string, permission: string)
    requires PUBLIC_READ !in PermissionGrants(ids, perm)
    ensures Principals(PermissionGrants(ids, perm), principalType, permission)
         == if perm == permission then ListOf(IdsOf(ids), principalType) else []
  {
    var groups, users := Grants("group", IdsOf(ids).groupIds, perm), Grants("user", IdsOf(ids).userIds, perm);
    assert PermissionGrants(ids, perm) == groups + users;
    PrincipalsConcat(groups, users, principalType, permission);
    PrincipalsOfGrants("group", IdsOf(ids).groupIds, perm, principalType, permission);
    PrincipalsOfGrants("user", IdsOf(ids).userIds, perm, principalType, permission);
  }

  lemma PrincipalsOfControl(control: AccessControl, principalType: string)
    requires control.Restricted? && !HasWildcardReader(control)
    ensures Principals(ToGrants("", control), principalType, "read") == ListOf(IdsOf(control.read), principalType)
    ensures Principals(ToGrants("", control), principalType, "write") == ListOf(IdsOf(control.write), principalType)
  {
    NoPublicRead(control);
    var read, write := PermissionGrants(control.read, "read"), PermissionGrants(control.write, "write");
    assert PUBLIC_READ !in read && PUBLIC_READ !in write;
    PrincipalsConcat(read, write, principalType, "read");
    PrincipalsConcat(read, write, principalType, "write");
    PrincipalsOfPermission(control.read, "read", principalType, "read");
    PrincipalsOfPermission(control.read, "read", principalType, "write");
    PrincipalsOfPermission(control.write, "write", principalType, "read");
    PrincipalsOfPermission(control.write, "write", principalType, "write");
  }

  /** What becomes of every access-control value on its way to grants and back: it returns with duplicates
      dropped when it names somebody and no wildcard reader; naming nobody it becomes private, and a
      wildcard reader makes it public. */
  lemma ControlRoundTrip(resourceType: string, control: AccessControl)
    ensures FromGrants(ToGrants(resourceType, control))
         == if control.Public? then (if resourceType == "file" then PRIVATE else Public)
            else if HasWildcardReader(control) then Public
            else if NamesNobody(control) then PRIVATE
            else Restricted(Some(DedupIds(IdsOf(control.read))), Some(DedupIds(IdsOf(control.write))))
  {
    if control.Restricted? {
      NoPublicRead(control);
      var grants := ToGrants(resourceType, control);
      assert grants == ToGrants("", control);
      assert |grants| == |IdsOf(control.read).groupIds| + |IdsOf(control.read).userIds|
                       + |IdsOf(control.write).groupIds| + |IdsOf(control.write).userIds|;
      assert grants == [] <==> NamesNobody(control);
      if !HasWildcardReader(control) {
        PrincipalsOfControl(control, "group");
        PrincipalsOfControl(control, "user");
      }
    }
  }

  /** A complete value without duplicates comes back unchanged. */
  lemma CleanControlReturns(resourceType: string, control: AccessControl)
    requires control.Restricted? && control.read.Some? && control.write.Some?
    requires !HasWildcardReader(control) && !NamesNobody(control)
    requires NoDuplicates(control.read.value.groupIds) && NoDuplicates(control.read.value.userIds)
    requires NoDuplicates(control.write.value.groupIds) && NoDuplicates(control.write.value.userIds)
    ensures FromGrants(ToGrants(resourceType, control)) == control
  {
    ControlRoundTrip(resourceType, control);
    DedupIdentity(control.read.value.groupIds);
    DedupIdentity(control.read.value.userIds);
    DedupIdentity(control.write.value.groupIds);
    DedupIdentity(control.write.value.userIds);
  }

  // ----- Back and there -----

  predicate IsPlain(g: Grant) {
    g.principalType in ["group", "user"] && g.permission in ["read", "write"]
  }

  lemma {:induction false} PrincipalsMembers(grants: seq<Grant>, principalType: string, permission: string, id: string)
    requires PUBLIC_READ !in grants
    ensures id in Principals(grants, principalType, permission) <==> Grant(principalType, id, permission) in grants
  {
    if grants != [] {
      var last, init := grants[|grants| - 1], grants[..|grants| - 1];
      assert grants == init + [last];
      PrincipalsMembers(init, principalType, permission, id);
    }
  }

  lemma GrantsMembers(kind: string, ids: seq<string>, perm: string, g: Grant)
    ensures g in Grants(kind, ids, perm) <==> g.principalType == kind && g.permission == perm && g.principalId in ids
  {
    if g.principalType == kind && g.permission == perm && g.principalId in ids {
      var i :| 0 <= i < |ids| && ids[i] == g.principalId;
      assert Grants(kind, ids, perm)[i] == g;
    }
  }

  lemma CollectedMembers(grants: seq<Grant>, permission: string, g: Grant)
    requires PUBLIC_READ !in grants
    ensures g in PermissionGrants(Some(Collected(grants, permission)), permission)
       <==> g in grants && g.principalType in ["group", "user"] && g.permission == permission
  {
    var ids := Collected(grants, permission);
    GrantsMembers("group", ids.groupIds, permission, g);
    GrantsMembers("user", ids.userIds, permission, g);
    DedupKeepsFirsts(Principals(grants, "group", permission));
    DedupKeepsFirsts(Principals(grants, "user", permission));
    PrincipalsMembers(grants, "group", permission, g.principalId);
    PrincipalsMembers(grants, "user", permission, g.principalId);
    assert g == Grant(g.principalType, g.principalId, g.permission);
  }

  /** What becomes of every list of grants on its way to the old format and back: without public read, the
      plain ones remain; with it, nothing but public read does, and for a file not even that. */
  lemma GrantsRoundTrip(resourceType: string, grants: seq<Grant>, g: Grant)
    ensures g in ToGrants(resourceType, FromGrants(grants))
       <==> if PUBLIC_READ in grants then g == PUBLIC_READ && resourceType != "file" else g in grants && IsPlain(g)
  {
    if PUBLIC_READ !in grants && grants != [] {
      CollectedMembers(grants, "read", g);
      CollectedMembers(grants, "write", g);
    }
  }

  ghost predicate SameGrants(a: seq<Grant>, b: seq<Grant>) {
    forall g :: g in a <==> g in b
  }

  /** So the set of grants is kept exactly when there is no public read and every grant is plain, or
      public read on something other than a file is all there is. */
  lemma GrantsKeptIff(resourceType: string, grants: seq<Grant>)
    ensures SameGrants(ToGrants(resourceType, FromGrants(grants)), grants)
       <==> if PUBLIC_READ in grants then resourceType != "file" && (forall g :: g in grants ==> g == PUBLIC_READ)
            else forall g :: g in grants ==> IsPlain(g)
  {
    forall g ensures g in ToGrants(resourceType, FromGrants(grants))
                <==> if PUBLIC_READ in grants then g == PUBLIC_READ && resourceType != "file"
                     else g in grants && IsPlain(g)
    {
      GrantsRoundTrip(resourceType, grants, g);
    }
  }

  // ----- What each format says -----

  predicate Lists(ids: Option<Ids>, principalType: string, id: string) {
    ids.Some? && ((principalType == "group" && id in ids.value.groupIds)
                  || (principalType == "user" && id in ids.value.userIds))
  }

  /** The grants of a control value: public read for a public one that is no file, else one for each id listed. */
  lemma ToGrantsIff(resourceType: string, control: AccessControl, g: Grant)
    ensures g in ToGrants(resourceType, control) <==>
            if control.Public? then resourceType != "file" && g == Grant("user", "*", "read")
            else || (g.permission == "read" && Lists(control.read, g.principalType, g.principalId))
                 || (g.permission == "write" && Lists(control.write, g.principalType, g.principalId))
  {
    if control.Restricted? {
      PermissionMembers(control.read, "read", g);
      PermissionMembers(control.write, "write", g);
    }
  }

  lemma PermissionMembers(ids: Option<Ids>, permission: string, g: Grant)
    ensures g in PermissionGrants(ids, permission) <==>
            g.permission == permission && Lists(ids, g.principalType, g.principalId)
  {
    GrantsMembers("group", IdsOf(ids).groupIds, permission, g);
    GrantsMembers("user", IdsOf(ids).userIds, permission, g);
  }

  /** The control value of a list of grants: public when anybody may read, else naming exactly those granted. */
  lemma FromGrantsIff(grants: seq<Grant>, id: string)
    ensures FromGrants(grants).Public? <==> Grant("user", "*", "read") in grants
    ensures FromGrants(grants).Restricted? ==>
              && (Lists(FromGrants(grants).read, "group", id) <==> Grant("group", id, "read") in grants)
              && (Lists(FromGrants(grants).read, "user", id) <==> Grant("user", id, "read") in grants)
              && (Lists(FromGrants(grants).write, "group", id) <==> Grant("group", id, "write") in grants)
              && (Lists(FromGrants(grants).write, "user", id) <==> Grant("user", id, "write") in grants)
  {
    if PUBLIC_READ !in grants && grants != [] {
      CollectedLists(grants, "read", id);
      CollectedLists(grants, "write", id);
    }
  }

  lemma CollectedLists(grants: seq<Grant>, permission: string, id: string)
    requires PUBLIC_READ !in grants
    ensures id in Collected(grants, permission).groupIds <==> Grant("group", id, permission) in grants
    ensures id in Collected(grants, permission).userIds <==> Grant("user", id, permission) in grants
  {
    DedupKeepsFirsts(Principals(grants, "group", permission));
    DedupKeepsFirsts(Principals(grants, "user", permission));
    PrincipalsMembers(grants, "group", permission, id);
    PrincipalsMembers(grants, "user", permission, id);
  }

  // ----- Who loses access -----

  /** `everyone`: the users who are not pending. `members`: of a group, inherited ones included. */
  datatype Directory = Directory(everyone: set<string>, members: map<string, set<string>>)

  function MembersOf(d: Directory, group: string): set<string> {
    if group in d.members then d.members[group] else {}
  }

  function Matching(grants: seq<Grant>, permission: string): set<(string, string)> {
    set g | g in grants && g.permission == permission :: (g.principalType, g.principalId)
  }

  predicate IsOpen(principals: set<(string, string)>) {
    ("user", "*") in principals
  }

  /** Whom a principal other than the wildcard reaches. */
  function UsersOf(d: Directory, principal: (string, string)): set<string> {
    if principal.0 == "user" then {principal.1} else if principal.0 == "group" then MembersOf(d, principal.1) else {}
  }

  function Reached(d: Directory, principals: set<(string, string)>): set<string> {
    set p, user | p in principals && user in UsersOf(d, p) :: user
  }

  function UserIds(d: Directory, grants: seq<Grant>, permission: string): set<string> {
    var principals := Matching(grants, permission);
    if IsOpen(principals) then d.everyone else Reached(d, principals)
  }

  function Revoked(d: Directory, before: seq<Grant>, after: seq<Grant>, permission: string): set<string> {
    var (was, now) := (Matching(before, permission), Matching(after, permission));
    if was <= now || IsOpen(now) then {} else UserIds(d, before, permission) - UserIds(d, after, permission)
  }

  /** Read off the grants: the wildcard admits every user who is not pending; without it a user needs a grant of
      their own, or one for a group that counts them among its members. */
  ghost predicate MayUse(d: Directory, grants: seq<Grant>, permission: string, user: string) {
    if Grant("user", "*", permission) in grants then user in d.everyone
    else Grant("user", user, permission) in grants || InGrantedGroup(d, grants, permission, user)
  }

  ghost predicate InGrantedGroup(d: Directory, grants: seq<Grant>, permission: string, user: string) {
    exists group :: group in d.members && user in d.members[group] && Grant("group", group, permission) in grants
  }

  lemma MatchingIff(grants: seq<Grant>, permission: string, principal: (string, string))
    ensures principal in Matching(grants, permission) <==> Grant(principal.0, principal.1, permission) in grants
  {
  }

  lemma UserIdsIff(d: Directory, grants: seq<Grant>, permission: string, user: string)
    ensures user in UserIds(d, grants, permission) <==> MayUse(d, grants, permission, user)
  {
    var principals := Matching(grants, permission);
    MatchingIff(grants, permission, ("user", "*"));
    MatchingIff(grants, permission, ("user", user));
    if !IsOpen(principals) {
      if user in Reached(d, principals) {
        var p :| p in principals && user in UsersOf(d, p);
        MatchingIff(grants, permission, p);
      }
      if InGrantedGroup(d, grants, permission, user) {
        var group :| group in d.members && user in d.members[group] && Grant("group", group, permission) in grants;
        MatchingIff(grants, permission, ("group", group));
        assert user in UsersOf(d, ("group", group));
      }
      if Grant("user", user, permission) in grants {
        assert user in UsersOf(d, ("user", user));
      }
    }
  }

  /** Reported as losing access: those who had it and have it no more, unless the resource is now open to everybody. */
  lemma RevokedIff(d: Directory, before: seq<Grant>, after: seq<Grant>, permission: string, user: string)
    ensures user in Revoked(d, before, after, permission) <==>
            && Grant("user", "*", permission) !in after
            && MayUse(d, before, permission, user) && !MayUse(d, after, permission, user)
  {
    var was, now := Matching(before, permission), Matching(after, permission);
    MatchingIff(after, permission, ("user", "*"));
    UserIdsIff(d, before, permission, user);
    UserIdsIff(d, after, permission, user);
    if was <= now && !IsOpen(now) {
      ReachedGrows(d, was, now);
    }
  }

  lemma ReachedGrows(d: Directory, was: set<(string, string)>, now: set<(string, string)>)
    requires was <= now
    ensures Reached(d, was) <= Reached(d, now)
  {
  }

  /** The early exit agrees with the full difference exactly when opening a resource to everybody, that was
      not open before, finds nobody among those with access before who is pending or gone. */
  lemma EarlyExitIff(d: Directory, before: seq<Grant>, after: seq<Grant>, permission: string)
    ensures Revoked(d, before, after, permission) == UserIds(d, before, permission) - UserIds(d, after, permission)
       <==> (IsOpen(Matching(after, permission)) ==>
               IsOpen(Matching(before, permission)) || Reached(d, Matching(before, permission)) <= d.everyone)
  {
    var was, now := Matching(before, permission), Matching(after, permission);
    if was <= now {
      ReachedGrows(d, was, now);
    }
    if IsOpen(now) && !IsOpen(was) {
      DifferenceEmpty(Reached(d, was), d.everyone);
    }
  }

  lemma DifferenceEmpty(a: set<string>, b: set<string>)
    ensures a - b == {} <==> a <= b
  {
    forall x | x in a ensures x in b || x in a - b {
    }
  }

  /** A pending user with a grant of their own loses access when the resource is opened to everybody, and
      the early exit does not report it. */
  lemma PendingUserIsMissed(pending: string)
    requires pending != "*"
    ensures var (d, before, after) := (Directory({}, map[]), [Grant("user", pending, "read")], [PUBLIC_READ]);
            pending in UserIds(d, before, "read") - UserIds(d, after, "read") && Revoked(d, before, after, "read") == {}
  {
    var d, before, after := Directory({}, map[]), [Grant("user", pending, "read")], [PUBLIC_READ];
    assert PUBLIC_READ in after;
    assert ("user", "*") in Matching(after, "read");
    assert Grant("user", pending, "read") in before;
    assert ("user", pending) in Matching(before, "read");
    assert pending in UsersOf(d, ("user", pending));
  }

  // ----- The loops -----

  method GrantsToAccessControl(grants: seq<Grant>) returns (control: AccessControl)
    ensures control == FromGrants(grants)
  {
    if grants == [] {
      return PRIVATE;
    }
    var readGroups, readUsers, writeGroups, writeUsers := [], [], [], [];
    var isPublic := false;
    for i := 0 to |grants|
      invariant isPublic <==> PUBLIC_READ in grants[..i]
      invariant Ids(readGroups, readUsers) == Collected(grants[..i], "read")
      invariant Ids(writeGroups, writeUsers) == Collected(grants[..i], "write")
    {
      var g := grants[i];
      CollectStep(grants, i, "read");
      CollectStep(grants, i, "write");
      assert grants[..i + 1] == grants[..i] + [g];
      if g == PUBLIC_READ {
        isPublic := true;
      } else if g.permission == "read" || g.permission == "write" {
        if g.principalType == "group" {
          if g.permission == "read" {
            readGroups := AddOnce(readGroups, g.principalId);
          } else {
            writeGroups := AddOnce(writeGroups, g.principalId);
          }
        } else if g.principalType == "user" {
          if g.permission == "read" {
            readUsers := AddOnce(readUsers, g.principalId);
          } else {
            writeUsers := AddOnce(writeUsers, g.principalId);
          }
        }
      }
    }
    assert grants[..|grants|] == grants;
    control := if isPublic then Public
               else Restricted(Some(Ids(readGroups, readUsers)), Some(Ids(writeGroups, writeUsers)));
  }

  function WithGrant(ids: Ids, g: Grant, permission: string): Ids {
    if g == PUBLIC_READ || g.permission != permission then ids
    else Ids(if g.principalType == "group" then AddOnce(ids.groupIds, g.principalId) else ids.groupIds,
             if g.principalType == "user" then AddOnce(ids.userIds, g.principalId) else ids.userIds)
  }

  /** One more grant adds its principal to one list at most, once. */
  lemma CollectStep(grants: seq<Grant>, i: nat, permission: string)
    requires i < |grants|
    ensures Collected(grants[..i + 1], permission)
         == WithGrant(Collected(grants[..i], permission), grants[i], permission)
  {
    var longer := grants[..i + 1];
    assert longer[..|longer| - 1] == grants[..i];
    DedupPush(Principals(grants[..i], "group", permission), grants[i].principalId);
    DedupPush(Principals(grants[..i], "user", permission), grants[i].principalId);
  }

  lemma DedupPush(list: seq<string>, id: string)
    ensures Dedup(list + [id]) == AddOnce(Dedup(list), id) && list + [] == list
  {
    assert (list + [id])[..|list|] == list;
  }

  method AccessControlToGrants(resourceType: string, control: AccessControl) returns (grants: seq<Grant>)
    ensures grants == ToGrants(resourceType, control)
  {
    grants := [];
    if control.Public? {
      if resourceType != "file" {
        grants := grants + [PUBLIC_READ];
      }
      return;
    }
    grants := AppendPermission(grants, IdsOf(control.read), "read");
    grants := AppendPermission(grants, IdsOf(control.write), "write");
  }

  method AppendPermission(start: seq<Grant>, ids: Ids, permission: string) returns (grants: seq<Grant>)
    ensures grants == start + PermissionGrants(Some(ids), permission)
  {
    grants := start;
    for i := 0 to |ids.groupIds|
      invariant grants == start + Grants("group", ids.groupIds[..i], permission)
    {
      grants := grants + [Grant("group", ids.groupIds[i], permission)];
    }
    assert ids.groupIds[..|ids.groupIds|] == ids.groupIds;
    for i := 0 to |ids.userIds|
      invariant grants
             == start + (Grants("group", ids.groupIds, permission) + Grants("user", ids.userIds[..i], permission))
    {
      grants := grants + [Grant("user", ids.userIds[i], permission)];
    }
    assert ids.userIds[..|ids.userIds|] == ids.userIds;
  }

  function GroupUsers(d: Directory, groups: seq<string>): set<string> {
    set group, user | group in groups && user in MembersOf(d, group) :: user
  }

  /** The loop returns at the first wildcard, wherever it stands. */
  method GetUserIdsByAccessGrants(d: Directory, grants: seq<Grant>, permission: string) returns (users: set<string>)
    ensures users == UserIds(d, grants, permission)
    ensures forall user :: user in users <==> MayUse(d, grants, permission, user)
  {
    forall user ensures user in UserIds(d, grants, permission) <==> MayUse(d, grants, permission, user) {
      UserIdsIff(d, grants, permission, user);
    }
    users := {};
    var groups: seq<string> := [];
    for i := 0 to |grants|
      invariant !IsOpen(Matching(grants[..i], permission))
      invariant users + GroupUsers(d, groups) == Reached(d, Matching(grants[..i], permission))
    {
      var g := grants[i];
      MatchingPush(grants, i, permission);
      if g.permission != permission {
        continue;
      }
      if g.principalType == "user" {
        if g.principalId == "*" {
          MatchingPrefix(grants, i + 1, permission);
          return d.everyone;
        }
        users := users + {g.principalId};
      } else if g.principalType == "group" {
        GroupUsersPush(d, groups, g.principalId);
        groups := groups + [g.principalId];
      }
      ReachedPush(d, Matching(grants[..i], permission), (g.principalType, g.principalId));
    }
    assert grants[..|grants|] == grants;
    users := users + GroupUsers(d, groups);
  }

  lemma MatchingPush(grants: seq<Grant>, i: nat, permission: string)
    requires i < |grants|
    ensures Matching(grants[..i + 1], permission) == Matching(grants[..i], permission) +
              if grants[i].permission == permission then {(grants[i].principalType, grants[i].principalId)} else {}
  {
    assert grants[..i + 1] == grants[..i] + [grants[i]];
    assert forall g :: g in grants[..i + 1] <==> g in grants[..i] || g == grants[i];
  }

  lemma MatchingPrefix(grants: seq<Grant>, i: nat, permission: string)
    requires i <= |grants|
    ensures Matching(grants[..i], permission) <= Matching(grants, permission)
  {
    assert forall g :: g in grants[..i] ==> g in grants;
  }

  lemma GroupUsersPush(d: Directory, groups: seq<string>, group: string)
    ensures GroupUsers(d, groups + [group]) == GroupUsers(d, groups) + MembersOf(d, group)
  {
  }

  lemma ReachedPush(d: Directory, principals: set<(string, string)>, p: (string, string))
    ensures Reached(d, principals + {p}) == Reached(d, principals) + UsersOf(d, p)
  {
  }
}
