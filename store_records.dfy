/**
 * The records the in-memory data store keeps, and the pure rules its write
 * operations follow: orphaning contributions of a removed fund, role creation,
 * renaming and deletion with reassignment, announcement reads, group
 * membership and the re-ordering of request types.
 */
module StoreRecords {
  import opened Wrappers
  import opened SoftDelete
  import Seqs
  import Sorting
  import JsString
  import RoleRules
  import AuditLogs

  datatype Household = Household(churchId: string, name: string)
  datatype Fund = Fund(churchId: string, name: string, description: Option<string>)
  datatype Contribution = Contribution(
    churchId: string, memberId: string, amount: int, date: Time,
    fundId: Option<string>, paymentMethod: string, note: Option<string>)
  datatype Document = Document(churchId: string, title: string, description: Option<string>, fileName: string)
  datatype DocumentPermission = DocumentPermission(documentId: string, roleId: string)
  datatype Child = Child(householdId: string, fullName: string)

  /** One entry of a user's `roles`. */
  datatype RoleAssignment = RoleAssignment(churchId: string, roleId: string)
  datatype StoreUser = StoreUser(
    id: string, primaryEmail: string, firstName: string, lastName: string,
    roles: seq<RoleAssignment>, deletedAt: Option<Time>)

  datatype GroupMember = GroupMember(userId: string, role: string, status: string, joinedAt: Time)
  datatype Group = Group(id: string, churchId: string, name: string, members: seq<GroupMember>)
  datatype AnnouncementRead = AnnouncementRead(announcementId: string, userId: string, readAt: Time)
  datatype RequestType = RequestType(id: string, name: string, displayOrder: int)

  /** A role as the role operations return it, with the number of users holding it. */
  datatype RoleView = RoleView(role: RoleRecord, assignmentCount: nat)
  type RoleRecord = RoleRules.RoleRecord

  /** The `{ deleted, reassigned }` answer of `deleteRole`. */
  datatype DeleteOutcome = DeleteOutcome(deleted: bool, reassigned: nat)

  /** The roles and users after a role deletion, with its answer. */
  datatype RoleDeletion = RoleDeletion(roles: seq<RoleRecord>, users: seq<StoreUser>, outcome: DeleteOutcome)

  /** The errors the store's write operations throw; `Message` is the text of each. */
  datatype StoreError =
    | RoleNameRequired | RoleNameExists | OtherRoleNameExists | RoleNotDeletable
    | ReassignRequired | ReassignSameRole | GroupNotFound | AlreadyMember | UserNotFound
  {
    function Message(): string
    {
      match this
      case RoleNameRequired => "Role name is required."
      case RoleNameExists => "A role with that name already exists."
      case OtherRoleNameExists => "Another role with that name already exists."
      case RoleNotDeletable => "This role cannot be deleted."
      case ReassignRequired => "Role is assigned to users. Provide reassignRoleId to transfer assignments."
      case ReassignSameRole => "Reassignment role must be different from the role being deleted."
      case GroupNotFound => "Group not found"
      case AlreadyMember => "User is already a member of this group"
      case UserNotFound => "User not found"
    }
  }

  const FundDeleteFailure := "Not found or already deleted"
  const FundRestoreFailure := "Not found or not deleted"
  const HouseholdDeleteFailure := "Household not found or already deleted"
  const HouseholdRestoreFailure := "Household not found or not deleted"
  const ChildDeleteFailure := "Child not found or already deleted"
  const ChildRestoreFailure := "Child not found or not deleted"

  // ------------------------------------------------------------ funds

  /** The contributions after `hardDeleteFund(fundId)`: references to the fund are cleared. */
  function ClearFund(t: seq<Row<Contribution>>, fundId: string): (r: seq<Row<Contribution>>)
    ensures |r| == |t|
    ensures forall k :: 0 <= k < |t| && t[k].data.fundId == Some(fundId) ==> r[k] == t[k].(data := t[k].data.(fundId := None))
    ensures forall k :: 0 <= k < |t| && t[k].data.fundId != Some(fundId) ==> r[k] == t[k]
  {
    if t == [] then []
    else
      var init := ClearFund(t[..|t| - 1], fundId);
      var last := t[|t| - 1];
      init + [if last.data.fundId == Some(fundId) then last.(data := last.data.(fundId := None)) else last]
  }

  /** After orphaning, no contribution refers to the fund, and ids and amounts are kept. */
  lemma ClearFundLeavesNoReference(t: seq<Row<Contribution>>, fundId: string)
    ensures var r := ClearFund(t, fundId);
            && (forall k :: 0 <= k < |r| ==> r[k].data.fundId != Some(fundId))
            && Ids(r) == Ids(t)
            && forall k :: 0 <= k < |r| ==> r[k].data.amount == t[k].data.amount && r[k].deletedAt == t[k].deletedAt
  {
  }

  lemma ClearFundAppend(t: seq<Row<Contribution>>, x: Row<Contribution>, fundId: string)
    ensures ClearFund(t + [x], fundId)
            == ClearFund(t, fundId) + [if x.data.fundId == Some(fundId) then x.(data := x.data.(fundId := None)) else x]
  {
    assert (t + [x])[..|t|] == t;
  }

  // ------------------------------------------------------------ users

  predicate Holds(u: StoreUser, roleId: string)
  {
    exists k :: 0 <= k < |u.roles| && u.roles[k].roleId == roleId
  }

  /** `user => user.roles.some(r => r.roleId === roleId)`. */
  function HoldsRole(roleId: string): StoreUser -> bool
  {
    (u: StoreUser) => Holds(u, roleId)
  }

  /** `withAssignmentCount`: the number of users holding the role. */
  function AssignmentCount(users: seq<StoreUser>, roleId: string): nat
  {
    |Seqs.Filter(users, HoldsRole(roleId))|
  }

  /** The number of holders of the role, counted one user at a time as the reassignment loop counts them. */
  function CountHolders(users: seq<StoreUser>, roleId: string): nat
  {
    if users == [] then 0
    else CountHolders(users[..|users| - 1], roleId) + (if Holds(users[|users| - 1], roleId) then 1 else 0)
  }

  /** Counting holders one by one gives the assignment count. */
  lemma {:induction false} CountHoldersIsAssignmentCount(users: seq<StoreUser>, roleId: string)
    ensures CountHolders(users, roleId) == AssignmentCount(users, roleId)
  {
    if users != [] {
      var init := users[..|users| - 1];
      CountHoldersIsAssignmentCount(init, roleId);
      Seqs.FilterAppend(init, users[|users| - 1], HoldsRole(roleId));
      assert init + [users[|users| - 1]] == users;
    }
  }

  function IdIs(id: string): StoreUser -> bool
  {
    (u: StoreUser) => u.id == id
  }

  /** `getUserName`: the trimmed full name, else the e-mail address, else the id itself. */
  function UserName(users: seq<StoreUser>, userId: string): (name: string)
    ensures (forall k :: 0 <= k < |users| ==> users[k].id != userId) ==> name == userId
    ensures userId != [] ==> name != []
  {
    match Seqs.FirstIndex(users, IdIs(userId))
    case None => userId
    case Some(k) =>
      var u := users[k];
      var full := JsString.Trim(u.firstName + " " + u.lastName);
      if full != [] then full else if u.primaryEmail != [] then u.primaryEmail else userId
  }

  /** `getUserById`: the first user with the id that is not deleted. */
  function ActiveUser(users: seq<StoreUser>, userId: string): (u: Option<StoreUser>)
    ensures u.Some? ==> u.value in users && u.value.id == userId && u.value.deletedAt.None?
    ensures u.None? <==> forall k :: 0 <= k < |users| ==> !(users[k].id == userId && users[k].deletedAt.None?)
  {
    match Seqs.FirstIndex(users, (v: StoreUser) => v.id == userId && v.deletedAt.None?)
    case None => None
    case Some(k) => Some(users[k])
  }

  // ------------------------------------------------------------ roles

  function RoleIdIs(id: string): RoleRecord -> bool
  {
    (r: RoleRecord) => r.id == id
  }

  /** No two roles of one church have names equal up to ASCII case. */
  predicate NamesUnique(roles: seq<RoleRecord>)
  {
    forall i, j :: 0 <= i < j < |roles| && roles[i].churchId == roles[j].churchId ==>
      JsString.ToLower(roles[i].name) != JsString.ToLower(roles[j].name)
  }

  predicate RoleIdsUnique(roles: seq<RoleRecord>)
  {
    forall i, j :: 0 <= i < j < |roles| ==> roles[i].id != roles[j].id
  }

  /** The slug of a new role: the trimmed given slug when it is not blank, else the slug of the name. */
  function NewSlug(slug: Option<string>, name: string): string
  {
    if slug.Some? && JsString.Trim(slug.value) != [] then JsString.Trim(slug.value) else RoleRules.Slugify(name)
  }

  /** `createRole`: the new role of `churchId`, or the reason it is refused. */
  function NewRole(
    roles: seq<RoleRecord>, churchId: string, name: Option<string>, slug: Option<string>,
    description: Option<string>, permissions: Option<seq<string>>, uuid: string, now: Time): (r: Result<RoleRecord, StoreError>)
    ensures name.None? || JsString.Trim(name.value) == [] ==> r == Err(RoleNameRequired)
    ensures name.Some? && JsString.Trim(name.value) != [] ==>
              (r.Err? <==> RoleRules.NameTaken(roles, churchId, JsString.Trim(name.value), None))
    ensures r.Err? ==> r.error == RoleNameRequired || r.error == RoleNameExists
    ensures r.Ok? ==> name.Some? && r.value.name == JsString.Trim(name.value) && r.value.name != []
    ensures r.Ok? ==> !RoleRules.NameTaken(roles, churchId, r.value.name, None)
    ensures r.Ok? ==> && r.value.id == "role-" + uuid && r.value.churchId == churchId
                      && !r.value.isSystem && r.value.isDeletable
                      && r.value.createdAt == now && r.value.updatedAt == now
                      && r.value.description == description
    ensures r.Ok? ==> r.value.slug == Some(NewSlug(slug, r.value.name))
    ensures r.Ok? ==> RoleRules.StrictlyAscending(r.value.permissions)
                      && forall k :: 0 <= k < |r.value.permissions| ==>
                           JsString.IsTrimmed(r.value.permissions[k]) && r.value.permissions[k] != []
    ensures r.Ok? && permissions.None? ==> r.value.permissions == []
  {
    if name.None? || JsString.Trim(name.value) == [] then Err(RoleNameRequired)
    else
      var trimmed := JsString.Trim(name.value);
      if RoleRules.NameTaken(roles, churchId, trimmed, None) then Err(RoleNameExists)
      else
        var perms := if permissions.Some? then RoleRules.NormalizePermissions(permissions.value) else [];
        Ok(RoleRules.RoleRecord("role-" + uuid, churchId, Some(NewSlug(slug, trimmed)), trimmed, description,
                                perms, false, true, now, now))
  }

  /** Creating a role keeps role names unique within each church. */
  lemma NewRoleKeepsNamesUnique(
    roles: seq<RoleRecord>, churchId: string, name: Option<string>, slug: Option<string>,
    description: Option<string>, permissions: Option<seq<string>>, uuid: string, now: Time)
    requires NamesUnique(roles)
    requires NewRole(roles, churchId, name, slug, description, permissions, uuid, now).Ok?
    ensures NamesUnique(roles + [NewRole(roles, churchId, name, slug, description, permissions, uuid, now).value])
  {
    var role := NewRole(roles, churchId, name, slug, description, permissions, uuid, now).value;
    var s := roles + [role];
    forall i, j | 0 <= i < j < |s| && s[i].churchId == s[j].churchId
      ensures JsString.ToLower(s[i].name) != JsString.ToLower(s[j].name)
    {
      if j == |roles| {
        assert s[i] == roles[i];
      }
    }
  }

  /**
   * `updateRole` on an existing role: a truthy name is trimmed, checked and set
   * (and the slug follows it unless the role is a system role); a given
   * description and permission list replace the old ones.
   */
  function UpdatedRole(
    roles: seq<RoleRecord>, role: RoleRecord, name: Option<string>, description: Option<Option<string>>,
    permissions: Option<seq<string>>, now: Time): (r: Result<RoleRecord, StoreError>)
    ensures AuditLogs.Truthy(name) && JsString.Trim(name.value) == [] ==> r == Err(RoleNameRequired)
    ensures AuditLogs.Truthy(name) && JsString.Trim(name.value) != [] ==>
              (r.Err? <==> RoleRules.NameTaken(roles, role.churchId, JsString.Trim(name.value), Some(role.id)))
    ensures !AuditLogs.Truthy(name) ==> r.Ok?
    ensures r.Err? ==> r.error == RoleNameRequired || r.error == OtherRoleNameExists
    ensures r.Ok? ==> && r.value.id == role.id && r.value.churchId == role.churchId
                      && r.value.isSystem == role.isSystem && r.value.isDeletable == role.isDeletable
                      && r.value.createdAt == role.createdAt && r.value.updatedAt == now
    ensures r.Ok? && AuditLogs.Truthy(name) ==>
              && r.value.name == JsString.Trim(name.value)
              && !RoleRules.NameTaken(roles, role.churchId, r.value.name, Some(role.id))
              && r.value.slug == (if role.isSystem then role.slug else Some(RoleRules.Slugify(r.value.name)))
    ensures r.Ok? && !AuditLogs.Truthy(name) ==> r.value.name == role.name && r.value.slug == role.slug
    ensures r.Ok? ==> r.value.description == if description.Some? then description.value else role.description
    ensures r.Ok? ==> r.value.permissions == if permissions.Some? then RoleRules.NormalizePermissions(permissions.value) else role.permissions
  {
    var renamed :=
      if !AuditLogs.Truthy(name) then Ok(role)
      else
        var trimmed := JsString.Trim(name.value);
        if trimmed == [] then Err(RoleNameRequired)
        else if RoleRules.NameTaken(roles, role.churchId, trimmed, Some(role.id)) then Err(OtherRoleNameExists)
        else Ok(role.(name := trimmed, slug := if role.isSystem then role.slug else Some(RoleRules.Slugify(trimmed))));
    match renamed
    case Err(e) => Err(e)
    case Ok(next) =>
      var described := if description.Some? then next.(description := description.value) else next;
      var permitted := if permissions.Some? then described.(permissions := RoleRules.NormalizePermissions(permissions.value)) else described;
      Ok(permitted.(updatedAt := now))
  }

  /** Updating a role in place keeps role names unique within each church. */
  lemma UpdatedRoleKeepsNamesUnique(
    roles: seq<RoleRecord>, k: nat, name: Option<string>, description: Option<Option<string>>,
    permissions: Option<seq<string>>, now: Time)
    requires k < |roles| && NamesUnique(roles) && RoleIdsUnique(roles)
    requires UpdatedRole(roles, roles[k], name, description, permissions, now).Ok?
    ensures NamesUnique(roles[k := UpdatedRole(roles, roles[k], name, description, permissions, now).value])
  {
    var role := UpdatedRole(roles, roles[k], name, description, permissions, now).value;
    var s := roles[k := role];
    forall i, j | 0 <= i < j < |s| && s[i].churchId == s[j].churchId
      ensures JsString.ToLower(s[i].name) != JsString.ToLower(s[j].name)
    {
      if (i == k || j == k) && AuditLogs.Truthy(name) {
        var other := if i == k then j else i;
        assert roles[other].id != roles[k].id;
      }
    }
  }

  /** A user's roles after `deleteRole(id)` moved them to `resolved`. */
  function ReassignedRoles(rs: seq<RoleAssignment>, id: string, resolved: string, churchId: string): (r: seq<RoleAssignment>)
    requires resolved != id
    ensures forall k :: 0 <= k < |r| ==> r[k].roleId != id
    ensures exists k :: 0 <= k < |r| && r[k].roleId == resolved
    ensures forall k :: 0 <= k < |rs| && rs[k].roleId != id ==> rs[k] in r
    ensures forall k :: 0 <= k < |r| ==> r[k] in rs || r[k] == RoleAssignment(churchId, resolved)
  {
    var kept := Seqs.Filter(rs, (a: RoleAssignment) => a.roleId != id);
    if exists k :: 0 <= k < |kept| && kept[k].roleId == resolved then kept
    else
      var r := kept + [RoleAssignment(churchId, resolved)];
      assert r[|kept|].roleId == resolved;
      r
  }

  predicate RoleIdsDistinct(rs: seq<RoleAssignment>)
  {
    forall i, j :: 0 <= i < j < |rs| ==> rs[i].roleId != rs[j].roleId
  }

  /** Reassignment never introduces a second assignment of a role. */
  lemma ReassignedRolesDistinct(rs: seq<RoleAssignment>, id: string, resolved: string, churchId: string)
    requires resolved != id && RoleIdsDistinct(rs)
    ensures RoleIdsDistinct(ReassignedRoles(rs, id, resolved, churchId))
  {
    var p := (a: RoleAssignment) => a.roleId != id;
    var kept := Seqs.Filter(rs, p);
    Seqs.FilterIsSubsequence(rs, p);
    SubsequenceDistinct(kept, rs);
  }

  lemma {:induction false} SubsequenceDistinct(a: seq<RoleAssignment>, b: seq<RoleAssignment>)
    requires Seqs.IsSubsequence(a, b) && RoleIdsDistinct(b)
    ensures RoleIdsDistinct(a)
  {
    if a != [] {
      var a', b' := a[..|a| - 1], b[..|b| - 1];
      assert RoleIdsDistinct(b');
      if a[|a| - 1] == b[|b| - 1] {
        SubsequenceDistinct(a', b');
        Seqs.SubsequenceMembers(a', b');
        forall i | 0 <= i < |a'| ensures a'[i].roleId != a[|a| - 1].roleId {
          assert a'[i] in a';
          var j :| 0 <= j < |b'| && b'[j] == a'[i];
        }
      } else {
        SubsequenceDistinct(a, b');
      }
    }
  }

  /** The users after the reassignment loop of `deleteRole`: holders of `id` move to `resolved`. */
  function Reassign(us: seq<StoreUser>, id: string, resolved: string, churchId: string): (r: seq<StoreUser>)
    requires resolved != id
    ensures |r| == |us|
    ensures forall k :: 0 <= k < |us| && Holds(us[k], id) ==> r[k] == us[k].(roles := ReassignedRoles(us[k].roles, id, resolved, churchId))
    ensures forall k :: 0 <= k < |us| && !Holds(us[k], id) ==> r[k] == us[k]
  {
    seq(|us|, k requires 0 <= k < |us| =>
      if Holds(us[k], id) then us[k].(roles := ReassignedRoles(us[k].roles, id, resolved, churchId)) else us[k])
  }

  lemma ReassignAppend(us: seq<StoreUser>, u: StoreUser, id: string, resolved: string, churchId: string)
    requires resolved != id
    ensures Reassign(us + [u], id, resolved, churchId)
            == Reassign(us, id, resolved, churchId) + [if Holds(u, id) then u.(roles := ReassignedRoles(u.roles, id, resolved, churchId)) else u]
  {
    assert (us + [u])[..|us|] == us;
  }

  /** `deleteRole`: the roles and users afterwards, or the reason the deletion is refused. */
  function DeleteRoleResult(
    roles: seq<RoleRecord>, users: seq<StoreUser>, id: string, reassignRoleId: Option<string>, churchId: string): (r: Result<RoleDeletion, StoreError>)
  {
    match Seqs.FirstIndex(roles, RoleIdIs(id))
    case None => Ok(RoleDeletion(roles, users, DeleteOutcome(false, 0)))
    case Some(k) =>
      var role := roles[k];
      if !role.isDeletable || role.slug == Some("admin") then Err(RoleNotDeletable)
      else if AssignmentCount(users, id) == 0 then
        Ok(RoleDeletion(roles[..k] + roles[k + 1..], users, DeleteOutcome(true, 0)))
      else if !AuditLogs.Truthy(reassignRoleId) then
        Err(ReassignRequired)
      else
        var resolved := RoleRules.ResolveRoleId(roles, reassignRoleId);
        if resolved == id then Err(ReassignSameRole)
        else
          Ok(RoleDeletion(roles[..k] + roles[k + 1..], Reassign(users, id, resolved, churchId),
                          DeleteOutcome(true, AssignmentCount(users, id))))
  }

  /** A missing role is answered with `{ deleted: false, reassigned: 0 }` and nothing changes. */
  lemma DeleteRoleMissing(roles: seq<RoleRecord>, users: seq<StoreUser>, id: string, reassignRoleId: Option<string>, churchId: string)
    ensures (forall k :: 0 <= k < |roles| ==> roles[k].id != id)
            <==> DeleteRoleResult(roles, users, id, reassignRoleId, churchId) == Ok(RoleDeletion(roles, users, DeleteOutcome(false, 0)))
  {
  }

  /** The refusals of `deleteRole` for an existing role, each exactly in its case. */
  lemma DeleteRoleRefusals(roles: seq<RoleRecord>, users: seq<StoreUser>, id: string, reassignRoleId: Option<string>, churchId: string, k: nat)
    requires FirstRole(roles, id, k)
    ensures var r := DeleteRoleResult(roles, users, id, reassignRoleId, churchId);
            var locked := !roles[k].isDeletable || roles[k].slug == Some("admin");
            var inUse := AssignmentCount(users, id) > 0;
            && (r == Err(RoleNotDeletable) <==> locked)
            && (r == Err(ReassignRequired) <==>
                  !locked && inUse && !AuditLogs.Truthy(reassignRoleId))
            && (r == Err(ReassignSameRole) <==>
                  !locked && inUse && AuditLogs.Truthy(reassignRoleId) && RoleRules.ResolveRoleId(roles, reassignRoleId) == id)
            && (r.Ok? <==> !locked && (!inUse || (AuditLogs.Truthy(reassignRoleId) && RoleRules.ResolveRoleId(roles, reassignRoleId) != id)))
  {
    var f := Seqs.FirstIndex(roles, RoleIdIs(id));
    assert RoleIdIs(id)(roles[k]);
    assert f == Some(k) by {
      assert !(f.value < k);
    }
  }

  /** Role `k` is the first role with the id. */
  predicate FirstRole(roles: seq<RoleRecord>, id: string, k: int)
  {
    0 <= k < |roles| && roles[k].id == id && forall j :: 0 <= j < k ==> roles[j].id != id
  }

  /**
   * The reassignment loop keeps every user in place, leaves no holder of `id`, gives
   * every former holder `resolved` and touches nobody else.
   */
  lemma ReassignMoves(users: seq<StoreUser>, id: string, resolved: string, churchId: string)
    requires resolved != id
    ensures var r := Reassign(users, id, resolved, churchId);
            && |r| == |users|
            && (forall k :: 0 <= k < |r| ==> !Holds(r[k], id))
            && (forall k :: 0 <= k < |users| && Holds(users[k], id) ==> Holds(r[k], resolved))
            && (forall k :: 0 <= k < |users| && !Holds(users[k], id) ==> r[k] == users[k])
  {
    var r := Reassign(users, id, resolved, churchId);
    forall k | 0 <= k < |users| && Holds(users[k], id) ensures Holds(r[k], resolved) {
      var rs := ReassignedRoles(users[k].roles, id, resolved, churchId);
      var m :| 0 <= m < |rs| && rs[m].roleId == resolved;
      assert r[k].roles[m].roleId == resolved;
    }
  }

  /**
   * After a successful deletion no user holds the role, every former holder holds
   * the replacement, non-holders are untouched, and `reassigned` counts the former holders.
   */
  lemma DeleteRoleReassigns(roles: seq<RoleRecord>, users: seq<StoreUser>, id: string, reassignRoleId: Option<string>, churchId: string)
    requires DeleteRoleResult(roles, users, id, reassignRoleId, churchId).Ok?
    ensures var d := DeleteRoleResult(roles, users, id, reassignRoleId, churchId).value;
            && (!d.outcome.deleted ==> d == RoleDeletion(roles, users, DeleteOutcome(false, 0)))
            && |d.users| == |users|
            && (d.outcome.deleted ==> d.outcome.reassigned == AssignmentCount(users, id))
            && (d.outcome.deleted ==> forall k :: 0 <= k < |d.users| ==> !Holds(d.users[k], id))
            && (forall k :: 0 <= k < |users| && !Holds(users[k], id) ==> d.users[k] == users[k])
            && (d.outcome.deleted && AssignmentCount(users, id) > 0 ==>
                  forall k :: 0 <= k < |users| && Holds(users[k], id) ==> Holds(d.users[k], RoleRules.ResolveRoleId(roles, reassignRoleId)))
  {
    var d := DeleteRoleResult(roles, users, id, reassignRoleId, churchId).value;
    if d.outcome.deleted && AssignmentCount(users, id) > 0 {
      ReassignMoves(users, id, RoleRules.ResolveRoleId(roles, reassignRoleId), churchId);
    }
  }

  /** A successful deletion removes exactly the role, and the replacement role still exists. */
  lemma DeleteRoleRemoves(roles: seq<RoleRecord>, users: seq<StoreUser>, id: string, reassignRoleId: Option<string>, churchId: string)
    requires DeleteRoleResult(roles, users, id, reassignRoleId, churchId).Ok?
    ensures var d := DeleteRoleResult(roles, users, id, reassignRoleId, churchId).value;
            && (d.outcome.deleted ==> exists k :: FirstRole(roles, id, k) && d.roles == roles[..k] + roles[k + 1..])
            && (d.outcome.deleted && AssignmentCount(users, id) > 0 ==>
                  exists j :: 0 <= j < |d.roles| && d.roles[j].id == RoleRules.ResolveRoleId(roles, reassignRoleId))
  {
    var d := DeleteRoleResult(roles, users, id, reassignRoleId, churchId).value;
    var f := Seqs.FirstIndex(roles, RoleIdIs(id));
    if d.outcome.deleted {
      var k := f.value;
      assert FirstRole(roles, id, k);
      if AssignmentCount(users, id) > 0 {
        var resolved := RoleRules.ResolveRoleId(roles, reassignRoleId);
        var j :| 0 <= j < |roles| && roles[j].id == resolved;
        assert j != k;
        var j' := if j < k then j else j - 1;
        assert d.roles[j'] == roles[j];
      }
    }
  }

  /** Reassignment keeps every user free of duplicate role assignments. */
  lemma ReassignKeepsRolesDistinct(users: seq<StoreUser>, id: string, resolved: string, churchId: string)
    requires resolved != id
    requires forall k :: 0 <= k < |users| ==> RoleIdsDistinct(users[k].roles)
    ensures var r := Reassign(users, id, resolved, churchId);
            forall k :: 0 <= k < |r| ==> RoleIdsDistinct(r[k].roles)
  {
    forall k | 0 <= k < |users| && Holds(users[k], id)
      ensures RoleIdsDistinct(ReassignedRoles(users[k].roles, id, resolved, churchId))
    {
      ReassignedRolesDistinct(users[k].roles, id, resolved, churchId);
    }
  }

  // ------------------------------------------------------- announcements

  function ReadBy(announcementId: string, userId: string): AnnouncementRead -> bool
  {
    (r: AnnouncementRead) => r.announcementId == announcementId && r.userId == userId
  }

  /** `markAnnouncementRead`: the existing read of the pair, or a new one appended. */
  function MarkRead(marks: seq<AnnouncementRead>, announcementId: string, userId: string, now: Time): (r: (seq<AnnouncementRead>, AnnouncementRead))
    ensures r.1.announcementId == announcementId && r.1.userId == userId
    ensures r.1 in r.0
    ensures (exists k :: 0 <= k < |marks| && marks[k].announcementId == announcementId && marks[k].userId == userId) ==> r.0 == marks
    ensures (forall k :: 0 <= k < |marks| ==> !(marks[k].announcementId == announcementId && marks[k].userId == userId)) ==>
              r == (marks + [AnnouncementRead(announcementId, userId, now)], AnnouncementRead(announcementId, userId, now))
  {
    match Seqs.FirstIndex(marks, ReadBy(announcementId, userId))
    case Some(k) => (marks, marks[k])
    case None =>
      var record := AnnouncementRead(announcementId, userId, now);
      (marks + [record], record)
  }

  /** Marking a read twice is marking it once: the second call answers with the first record and adds nothing. */
  lemma MarkReadIdempotent(marks: seq<AnnouncementRead>, announcementId: string, userId: string, now: Time, later: Time)
    ensures var first := MarkRead(marks, announcementId, userId, now);
            MarkRead(first.0, announcementId, userId, later) == first
  {
    var first := MarkRead(marks, announcementId, userId, now);
    var p := ReadBy(announcementId, userId);
    var f := Seqs.FirstIndex(first.0, p);
    var f0 := Seqs.FirstIndex(marks, p);
    if f0.None? {
      assert p(first.0[|marks|]);
      assert f.Some? && f.value == |marks|;
    } else {
      assert f == f0;
    }
  }

  // ------------------------------------------------------------- groups

  function GroupIdIs(id: string): Group -> bool
  {
    (g: Group) => g.id == id
  }

  /** `addGroupMember`: the groups with the new member appended to the first group with the id, and the member. */
  function AddMember(
    groups: seq<Group>, users: seq<StoreUser>, groupId: string, userId: string,
    role: Option<string>, status: Option<string>, joinedAt: Option<Time>, now: Time): (r: Result<(seq<Group>, GroupMember), StoreError>)
    ensures (forall g :: 0 <= g < |groups| ==> groups[g].id != groupId) <==> r == Err(GroupNotFound)
    ensures r.Err? ==> r.error == GroupNotFound || r.error == AlreadyMember || r.error == UserNotFound
    ensures r.Ok? ==> r.value.1 == GroupMember(userId, role.OrElse("Member"), status.OrElse("Active"), joinedAt.OrElse(now))
    ensures r.Ok? ==> exists u :: 0 <= u < |users| && users[u].id == userId
    ensures r.Ok? ==> exists g :: FirstGroup(groups, groupId, g)
                        && (forall m :: 0 <= m < |groups[g].members| ==> groups[g].members[m].userId != userId)
                        && r.value.0 == groups[g := groups[g].(members := groups[g].members + [r.value.1])]
    ensures forall g :: FirstGroup(groups, groupId, g) ==>
              ((exists m :: 0 <= m < |groups[g].members| && groups[g].members[m].userId == userId)
                 <==> r == Err(AlreadyMember))
  {
    match Seqs.FirstIndex(groups, GroupIdIs(groupId))
    case None => Err(GroupNotFound)
    case Some(g) =>
      var group := groups[g];
      assert FirstGroup(groups, groupId, g);
      assert forall g' :: FirstGroup(groups, groupId, g') ==> g' == g;
      if exists m :: 0 <= m < |group.members| && group.members[m].userId == userId then
        Err(AlreadyMember)
      else if forall u :: 0 <= u < |users| ==> users[u].id != userId then Err(UserNotFound)
      else
        var member := GroupMember(userId, role.OrElse("Member"), status.OrElse("Active"), joinedAt.OrElse(now));
        Ok((groups[g := group.(members := group.members + [member])], member))
  }

  /** Group `g` is the first group with the id. */
  predicate FirstGroup(groups: seq<Group>, groupId: string, g: int)
  {
    0 <= g < |groups| && groups[g].id == groupId && forall j :: 0 <= j < g ==> groups[j].id != groupId
  }

  /** A second `addGroupMember` of the same user to the same group is refused. */
  lemma AddMemberTwiceRefused(
    groups: seq<Group>, users: seq<StoreUser>, groupId: string, userId: string,
    role: Option<string>, status: Option<string>, joinedAt: Option<Time>, now: Time,
    role': Option<string>, status': Option<string>, joinedAt': Option<Time>, later: Time)
    requires AddMember(groups, users, groupId, userId, role, status, joinedAt, now).Ok?
    ensures AddMember(AddMember(groups, users, groupId, userId, role, status, joinedAt, now).value.0,
                      users, groupId, userId, role', status', joinedAt', later)
            == Err(AlreadyMember)
  {
    var (after, member) := AddMember(groups, users, groupId, userId, role, status, joinedAt, now).value;
    var g :| FirstGroup(groups, groupId, g) && after == groups[g := groups[g].(members := groups[g].members + [member])];
    assert FirstGroup(after, groupId, g);
    assert after[g].members[|groups[g].members|].userId == userId;
  }

  // ------------------------------------------------------- request types

  function Listed(ids: seq<string>): RequestType -> bool
  {
    (rt: RequestType) => rt.id in ids
  }

  function Unlisted(ids: seq<string>): RequestType -> bool
  {
    (rt: RequestType) => rt.id !in ids
  }

  function TypeIdIs(id: string): RequestType -> bool
  {
    (rt: RequestType) => rt.id == id
  }

  /** The renumbering loop: for each position `i` of `ids`, the first type with id `ids[i]` gets order `i + 1`. */
  function Renumber(s: seq<RequestType>, ids: seq<string>): (r: seq<RequestType>)
    ensures |r| == |s|
    ensures forall k :: 0 <= k < |s| ==> r[k].id == s[k].id && r[k].name == s[k].name
  {
    if ids == [] then s
    else
      var before := Renumber(s, ids[..|ids| - 1]);
      match Seqs.FirstIndex(before, TypeIdIs(ids[|ids| - 1]))
      case None => before
      case Some(k) => before[k := before[k].(displayOrder := |ids|)]
  }

  predicate TypeIdsUnique(s: seq<RequestType>)
  {
    forall i, j :: 0 <= i < j < |s| ==> s[i].id != s[j].id
  }

  /** With distinct ids on both sides, the type listed at position `i` ends up with order `i + 1`; unlisted types keep theirs. */
  lemma {:induction false} RenumberPlaces(s: seq<RequestType>, ids: seq<string>)
    requires TypeIdsUnique(s) && Seqs.NoDuplicates(ids)
    ensures forall i, k :: 0 <= i < |ids| && 0 <= k < |s| && s[k].id == ids[i] ==> Renumber(s, ids)[k].displayOrder == i + 1
    ensures forall k :: 0 <= k < |s| && s[k].id !in ids ==> Renumber(s, ids)[k] == s[k]
  {
    if ids != [] {
      var init := ids[..|ids| - 1];
      var last := ids[|ids| - 1];
      RenumberPlaces(s, init);
      var before := Renumber(s, init);
      var r := Renumber(s, ids);
      forall i, k | 0 <= i < |ids| && 0 <= k < |s| && s[k].id == ids[i] ensures r[k].displayOrder == i + 1 {
        var f := Seqs.FirstIndex(before, TypeIdIs(last));
        if i == |ids| - 1 {
          assert TypeIdIs(last)(before[k]);
          assert f.Some?;
          assert before[f.value].id == s[f.value].id;
        } else {
          assert ids[i] == init[i];
          assert ids[i] != last;
          if f.Some? {
            assert f.value != k;
          }
        }
      }
      forall k | 0 <= k < |s| && s[k].id !in ids ensures r[k] == s[k] {
        assert s[k].id !in init;
        var f := Seqs.FirstIndex(before, TypeIdIs(last));
        if f.Some? {
          assert f.value != k;
        }
      }
    }
  }

  function DisplayOrderKey(rt: RequestType): Sorting.SortKey
  {
    Sorting.Num(rt.displayOrder)
  }

  /** The ids of the types. */
  function IdSet(s: seq<RequestType>): set<string>
  {
    set k | 0 <= k < |s| :: s[k].id
  }

  /** `reorderRequestTypes`: the listed types renumbered, followed by the others, sorted by order. */
  function Reorder(types: seq<RequestType>, ids: seq<string>): (r: seq<RequestType>)
    ensures |r| == |types|
    ensures forall i, j :: 0 <= i < j < |r| ==> r[i].displayOrder <= r[j].displayOrder
    ensures IdSet(r) == IdSet(types)
  {
    var joined := Renumber(Seqs.Filter(types, Listed(ids)), ids) + Seqs.Filter(types, Unlisted(ids));
    var r := Sorting.SortBy(joined, DisplayOrderKey, false);
    JoinedKeepsIds(types, ids);
    SortKeepsIds(joined);
    SortedByOrder(joined);
    r
  }

  /**
   * With distinct type ids and distinct listed ids, the type whose id is `ids[i]` ends
   * up with order `i + 1`, every unlisted type keeps its record, and every re-ordered
   * type is a type of the table with at most its order changed.
   */
  lemma ReorderPlaces(types: seq<RequestType>, ids: seq<string>)
    requires TypeIdsUnique(types) && Seqs.NoDuplicates(ids)
    ensures var r := Reorder(types, ids);
            && (forall i, k :: 0 <= i < |ids| && 0 <= k < |r| && r[k].id == ids[i] ==> r[k].displayOrder == i + 1)
            && (forall k :: 0 <= k < |types| && types[k].id !in ids ==> types[k] in r)
            && (forall k :: 0 <= k < |r| && r[k].id !in ids ==> r[k] in types)
            && (forall k :: 0 <= k < |r| ==> exists j :: 0 <= j < |types| && r[k] == types[j].(displayOrder := r[k].displayOrder))
  {
    var listed := Seqs.Filter(types, Listed(ids));
    var unlisted := Seqs.Filter(types, Unlisted(ids));
    var numbered := Renumber(listed, ids);
    FilterTypeIdsUnique(types, Listed(ids));
    RenumberPlaces(listed, ids);
    forall m | 0 <= m < |listed| ensures listed[m].id in ids && listed[m] in types {
      assert Listed(ids)(listed[m]);
    }
    forall m | 0 <= m < |unlisted| ensures unlisted[m].id !in ids && unlisted[m] in types {
      assert Unlisted(ids)(unlisted[m]);
    }
    forall k | 0 <= k < |types| && types[k].id !in ids ensures types[k] in unlisted {
      assert Unlisted(ids)(types[k]);
    }
    PlacesKept(types, ids, listed, unlisted, numbered, Reorder(types, ids));
  }

  /** The facts of `ReorderPlaces` for any permutation of the renumbered listed types followed by the unlisted ones. */
  lemma PlacesKept(types: seq<RequestType>, ids: seq<string>, listed: seq<RequestType>, unlisted: seq<RequestType>,
                   numbered: seq<RequestType>, r: seq<RequestType>)
    requires forall m :: 0 <= m < |listed| ==> listed[m].id in ids && listed[m] in types
    requires forall m :: 0 <= m < |unlisted| ==> unlisted[m].id !in ids && unlisted[m] in types
    requires forall k :: 0 <= k < |types| && types[k].id !in ids ==> types[k] in unlisted
    requires |numbered| == |listed| && forall m :: 0 <= m < |listed| ==> numbered[m].id == listed[m].id && numbered[m].name == listed[m].name
    requires forall i, m :: 0 <= i < |ids| && 0 <= m < |listed| && listed[m].id == ids[i] ==> numbered[m].displayOrder == i + 1
    requires multiset(r) == multiset(numbered + unlisted)
    ensures forall i, k :: 0 <= i < |ids| && 0 <= k < |r| && r[k].id == ids[i] ==> r[k].displayOrder == i + 1
    ensures forall k :: 0 <= k < |types| && types[k].id !in ids ==> types[k] in r
    ensures forall k :: 0 <= k < |r| && r[k].id !in ids ==> r[k] in types
    ensures forall k :: 0 <= k < |r| ==> exists j :: 0 <= j < |types| && r[k] == types[j].(displayOrder := r[k].displayOrder)
  {
    var joined := numbered + unlisted;
    forall k | 0 <= k < |r| ensures r[k] in joined {
      assert r[k] in multiset(joined);
    }
    forall i, k | 0 <= i < |ids| && 0 <= k < |r| && r[k].id == ids[i] ensures r[k].displayOrder == i + 1 {
      var m :| 0 <= m < |joined| && joined[m] == r[k];
    }
    forall k | 0 <= k < |types| && types[k].id !in ids ensures types[k] in r {
      assert types[k] in multiset(joined);
    }
    forall k | 0 <= k < |r| && r[k].id !in ids ensures r[k] in types {
      var m :| 0 <= m < |joined| && joined[m] == r[k];
    }
    forall k | 0 <= k < |r| ensures exists j :: 0 <= j < |types| && r[k] == types[j].(displayOrder := r[k].displayOrder) {
      var m :| 0 <= m < |joined| && joined[m] == r[k];
      var y := if m < |numbered| then listed[m] else unlisted[m - |numbered|];
      assert r[k] == y.(displayOrder := r[k].displayOrder);
      var j :| 0 <= j < |types| && types[j] == y;
    }
  }

  /** Filtering keeps the type ids distinct. */
  lemma {:induction false} FilterTypeIdsUnique(s: seq<RequestType>, p: RequestType -> bool)
    requires TypeIdsUnique(s)
    ensures TypeIdsUnique(Seqs.Filter(s, p))
  {
    if s != [] {
      var init, x := s[..|s| - 1], s[|s| - 1];
      assert s == init + [x];
      assert TypeIdsUnique(init);
      FilterTypeIdsUnique(init, p);
      Seqs.FilterAppend(init, x, p);
      var f := Seqs.Filter(init, p);
      forall k | 0 <= k < |f| ensures f[k].id != x.id {
        var j :| 0 <= j < |init| && init[j] == f[k];
      }
    }
  }

  lemma SortedByOrder(s: seq<RequestType>)
    ensures var r := Sorting.SortBy(s, DisplayOrderKey, false);
            forall i, j :: 0 <= i < j < |r| ==> r[i].displayOrder <= r[j].displayOrder
  {
    var r := Sorting.SortBy(s, DisplayOrderKey, false);
    forall i, j | 0 <= i < j < |r| ensures r[i].displayOrder <= r[j].displayOrder {
      assert !Sorting.Before(DisplayOrderKey, false, r[j], r[i]);
    }
  }

  lemma SortKeepsIds(s: seq<RequestType>)
    ensures IdSet(Sorting.SortBy(s, DisplayOrderKey, false)) == IdSet(s)
  {
    var r := Sorting.SortBy(s, DisplayOrderKey, false);
    Sorting.SortByMembers(s, DisplayOrderKey, false);
    forall x | x in IdSet(s) ensures x in IdSet(r) {
      var k :| 0 <= k < |s| && s[k].id == x;
      var j :| 0 <= j < |r| && r[j] == s[k];
    }
    forall x | x in IdSet(r) ensures x in IdSet(s) {
      var j :| 0 <= j < |r| && r[j].id == x;
      var k :| 0 <= k < |s| && s[k] == r[j];
    }
  }

  lemma JoinedKeepsIds(types: seq<RequestType>, ids: seq<string>)
    ensures var listed := Seqs.Filter(types, Listed(ids));
            var joined := Renumber(listed, ids) + Seqs.Filter(types, Unlisted(ids));
            |joined| == |types| && IdSet(joined) == IdSet(types)
  {
    FilterSplit(types, ids);
    JoinedHasEveryId(types, ids);
    JoinedHasOnlyIds(types, ids);
  }

  lemma JoinedHasEveryId(types: seq<RequestType>, ids: seq<string>)
    ensures IdSet(types) <= IdSet(Renumber(Seqs.Filter(types, Listed(ids)), ids) + Seqs.Filter(types, Unlisted(ids)))
  {
    var listed := Seqs.Filter(types, Listed(ids));
    IdsCovered(types, ids, listed, Seqs.Filter(types, Unlisted(ids)), Renumber(listed, ids));
  }

  /** Every type is listed or unlisted, and renumbering keeps the listed ids in place, so every id survives the join. */
  lemma IdsCovered(types: seq<RequestType>, ids: seq<string>, listed: seq<RequestType>, unlisted: seq<RequestType>,
                   numbered: seq<RequestType>)
    requires forall k :: 0 <= k < |types| && types[k].id in ids ==> types[k] in listed
    requires forall k :: 0 <= k < |types| && types[k].id !in ids ==> types[k] in unlisted
    requires |numbered| == |listed| && forall k :: 0 <= k < |listed| ==> numbered[k].id == listed[k].id
    ensures IdSet(types) <= IdSet(numbered + unlisted)
  {
    var joined := numbered + unlisted;
    forall x | x in IdSet(types) ensures x in IdSet(joined) {
      var k :| 0 <= k < |types| && types[k].id == x;
      if x in ids {
        var m :| 0 <= m < |listed| && listed[m] == types[k];
        assert joined[m].id == x;
      } else {
        var m :| 0 <= m < |unlisted| && unlisted[m] == types[k];
        assert joined[|numbered| + m] == types[k];
      }
    }
  }

  lemma JoinedHasOnlyIds(types: seq<RequestType>, ids: seq<string>)
    ensures IdSet(Renumber(Seqs.Filter(types, Listed(ids)), ids) + Seqs.Filter(types, Unlisted(ids))) <= IdSet(types)
  {
    var listed := Seqs.Filter(types, Listed(ids));
    var unlisted := Seqs.Filter(types, Unlisted(ids));
    var numbered := Renumber(listed, ids);
    var joined := numbered + unlisted;
    forall x | x in IdSet(joined) ensures x in IdSet(types) {
      var j :| 0 <= j < |joined| && joined[j].id == x;
      var y := if j < |numbered| then listed[j] else unlisted[j - |numbered|];
      assert y.id == x;
      var k :| 0 <= k < |types| && types[k] == y;
    }
  }

  /** The listed and the unlisted types together are as many as the types. */
  lemma {:induction false} FilterSplit(types: seq<RequestType>, ids: seq<string>)
    ensures |Seqs.Filter(types, Listed(ids))| + |Seqs.Filter(types, Unlisted(ids))| == |types|
  {
    if types != [] {
      FilterSplit(types[..|types| - 1], ids);
    }
  }
}
