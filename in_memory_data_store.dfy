/**
 * The in-memory data store: its tables are fields that the write operations
 * update in place, following the rules of `StoreRecords` and `SoftDelete`.
 * The clock, the generated ids and the current church are parameters.
 */
module InMemoryDataStore {
  import opened Wrappers
  import opened SoftDelete
  import opened StoreRecords
  import Seqs
  import Sorting
  import RoleRules
  import AuditLogs

  /** A listed audit-log entry with its actor (`getUserById`, `None` for an unknown or deleted user). */
  datatype ListedAuditLog = ListedAuditLog(log: AuditLogs.AuditLog, actor: Option<StoreUser>)

  class Store {
    /** The id of the store's church (`getChurch().id`). */
    const churchId: string

    var households: seq<Row<Household>>
    var funds: seq<Row<Fund>>
    var contributions: seq<Row<Contribution>>
    var documents: seq<Row<Document>>
    var documentPermissions: seq<DocumentPermission>
    var children: seq<Row<Child>>
    var roles: seq<RoleRecord>
    var users: seq<StoreUser>
    var groups: seq<Group>
    var announcementReads: seq<AnnouncementRead>
    var requestTypes: seq<RequestType>
    var auditLogs: seq<AuditLogs.AuditLog>

    constructor (churchId: string)
      ensures this.churchId == churchId
      ensures households == [] && funds == [] && contributions == [] && documents == []
      ensures documentPermissions == [] && children == [] && roles == [] && users == []
      ensures groups == [] && announcementReads == [] && requestTypes == [] && auditLogs == []
    {
      this.churchId := churchId;
      households, funds, contributions, documents := [], [], [], [];
      documentPermissions, children, roles, users := [], [], [], [];
      groups, announcementReads, requestTypes, auditLogs := [], [], [], [];
    }

    // ------------------------------------------------------------ households

    method DeleteHousehold(id: string, now: Time) returns (success: bool)
      modifies this`households
      ensures var c := Delete(old(households), id, now); households == c.table && success == c.success
    {
      var c := Delete(households, id, now);
      households, success := c.table, c.success;
    }

    method UndeleteHousehold(id: string) returns (success: bool)
      modifies this`households
      ensures var c := Undelete(old(households), id); households == c.table && success == c.success
    {
      var c := Undelete(households, id);
      households, success := c.table, c.success;
    }

    method HardDeleteHousehold(id: string) returns (success: bool)
      modifies this`households
      ensures var c := HardDelete(old(households), id); households == c.table && success == c.success
    {
      var c := HardDelete(households, id);
      households, success := c.table, c.success;
    }

    /**
     * `bulkDeleteHouseholds` as written: every household is deleted as `SoftDelete.Bulk`
     * would delete it, but every id is reported failed (see `SoftDelete.BulkAsWritten`).
     */
    method BulkDeleteHouseholds(ids: seq<string>, now: Time) returns (report: BulkReport)
      modifies this`households
      ensures (households, report) == BulkAsWritten(old(households), ids, Remove(now), HouseholdDeleteFailure)
    {
      households, report := RunBulkAsWritten(households, ids, Remove(now), HouseholdDeleteFailure);
    }

    /** `bulkUndeleteHouseholds` as written: the restores happen, every id is reported failed. */
    method BulkUndeleteHouseholds(ids: seq<string>) returns (report: BulkReport)
      modifies this`households
      ensures (households, report) == BulkAsWritten(old(households), ids, Restore, HouseholdRestoreFailure)
    {
      households, report := RunBulkAsWritten(households, ids, Restore, HouseholdRestoreFailure);
    }

    // ----------------------------------------------------------------- funds

    method DeleteFund(id: string, now: Time) returns (success: bool)
      modifies this`funds
      ensures var c := Delete(old(funds), id, now); funds == c.table && success == c.success
    {
      var c := Delete(funds, id, now);
      funds, success := c.table, c.success;
    }

    method UndeleteFund(id: string) returns (success: bool)
      modifies this`funds
      ensures var c := Undelete(old(funds), id); funds == c.table && success == c.success
    {
      var c := Undelete(funds, id);
      funds, success := c.table, c.success;
    }

    /** `hardDeleteFund`: removes the fund and then clears `fundId` on each contribution that referred to it. */
    method HardDeleteFund(id: string) returns (success: bool)
      modifies this`funds, this`contributions
      ensures var c := HardDelete(old(funds), id); funds == c.table && success == c.success
      ensures success ==> contributions == ClearFund(old(contributions), id)
      ensures !success ==> contributions == old(contributions)
    {
      var c := HardDelete(funds, id);
      funds, success := c.table, c.success;
      if !success {
        return;
      }
      contributions := ClearFundReferences(contributions, id);
    }

    method BulkDeleteFunds(ids: seq<string>, now: Time) returns (report: BulkReport)
      modifies this`funds
      ensures (funds, report) == Bulk(old(funds), ids, Remove(now), FundDeleteFailure)
    {
      funds, report := RunBulk(funds, ids, Remove(now), FundDeleteFailure);
    }

    method BulkUndeleteFunds(ids: seq<string>) returns (report: BulkReport)
      modifies this`funds
      ensures (funds, report) == Bulk(old(funds), ids, Restore, FundRestoreFailure)
    {
      funds, report := RunBulk(funds, ids, Restore, FundRestoreFailure);
    }

    // --------------------------------------------------------- contributions

    method DeleteContribution(id: string, now: Time) returns (success: bool)
      modifies this`contributions
      ensures var c := Delete(old(contributions), id, now); contributions == c.table && success == c.success
    {
      var c := Delete(contributions, id, now);
      contributions, success := c.table, c.success;
    }

    method UndeleteContribution(id: string) returns (success: bool)
      modifies this`contributions
      ensures var c := Undelete(old(contributions), id); contributions == c.table && success == c.success
    {
      var c := Undelete(contributions, id);
      contributions, success := c.table, c.success;
    }

    method HardDeleteContribution(id: string) returns (success: bool)
      modifies this`contributions
      ensures var c := HardDelete(old(contributions), id); contributions == c.table && success == c.success
    {
      var c := HardDelete(contributions, id);
      contributions, success := c.table, c.success;
    }

    method BulkDeleteContributions(ids: seq<string>, now: Time) returns (report: BulkReport)
      modifies this`contributions
      ensures (contributions, report) == Bulk(old(contributions), ids, Remove(now), FundDeleteFailure)
    {
      contributions, report := RunBulk(contributions, ids, Remove(now), FundDeleteFailure);
    }

    method BulkUndeleteContributions(ids: seq<string>) returns (report: BulkReport)
      modifies this`contributions
      ensures (contributions, report) == Bulk(old(contributions), ids, Restore, FundRestoreFailure)
    {
      contributions, report := RunBulk(contributions, ids, Restore, FundRestoreFailure);
    }

    // ------------------------------------------------------------- documents

    method DeleteDocument(id: string, now: Time) returns (success: bool)
      modifies this`documents
      ensures var c := Delete(old(documents), id, now); documents == c.table && success == c.success
    {
      var c := Delete(documents, id, now);
      documents, success := c.table, c.success;
    }

    method UndeleteDocument(id: string) returns (success: bool)
      modifies this`documents
      ensures var c := Undelete(old(documents), id); documents == c.table && success == c.success
    {
      var c := Undelete(documents, id);
      documents, success := c.table, c.success;
    }

    /** `hardDeleteDocument`: removes the document and every permission row of it. */
    method HardDeleteDocument(id: string) returns (success: bool)
      modifies this`documents, this`documentPermissions
      ensures var c := HardDelete(old(documents), id); documents == c.table && success == c.success
      ensures success ==> documentPermissions == Seqs.Filter(old(documentPermissions), OtherDocument(id))
      ensures !success ==> documentPermissions == old(documentPermissions)
    {
      var c := HardDelete(documents, id);
      documents, success := c.table, c.success;
      if success {
        documentPermissions := Seqs.Filter(documentPermissions, OtherDocument(id));
      }
    }

    // -------------------------------------------------------------- children

    method DeleteChild(id: string, now: Time) returns (success: bool)
      modifies this`children
      ensures var c := Delete(old(children), id, now); children == c.table && success == c.success
    {
      var c := Delete(children, id, now);
      children, success := c.table, c.success;
    }

    method UndeleteChild(id: string) returns (success: bool)
      modifies this`children
      ensures var c := Undelete(old(children), id); children == c.table && success == c.success
    {
      var c := Undelete(children, id);
      children, success := c.table, c.success;
    }

    method HardDeleteChild(id: string) returns (success: bool)
      modifies this`children
      ensures var c := HardDelete(old(children), id); children == c.table && success == c.success
    {
      var c := HardDelete(children, id);
      children, success := c.table, c.success;
    }

    /** `bulkDeleteChildren`: the single deletions run one after the other, then their outcomes are counted. */
    method BulkDeleteChildren(ids: seq<string>, now: Time) returns (report: BulkReport)
      modifies this`children
      ensures (children, report) == Bulk(old(children), ids, Remove(now), ChildDeleteFailure)
    {
      children, report := RunBulk(children, ids, Remove(now), ChildDeleteFailure);
    }

    method BulkUndeleteChildren(ids: seq<string>) returns (report: BulkReport)
      modifies this`children
      ensures (children, report) == Bulk(old(children), ids, Restore, ChildRestoreFailure)
    {
      children, report := RunBulk(children, ids, Restore, ChildRestoreFailure);
    }

    // ----------------------------------------------------------------- roles

    /** `createRole` in the store's church; `uuid` is the generated part of the id. */
    method CreateRole(
      name: Option<string>, slug: Option<string>, description: Option<string>,
      permissions: Option<seq<string>>, uuid: string, now: Time) returns (r: Result<RoleView, StoreError>)
      modifies this`roles
      ensures match NewRole(old(roles), churchId, name, slug, description, permissions, uuid, now)
              case Err(e) => r == Err(e) && roles == old(roles)
              case Ok(role) => roles == old(roles) + [role] && r == Ok(RoleView(role, AssignmentCount(users, role.id)))
    {
      match NewRole(roles, churchId, name, slug, description, permissions, uuid, now)
      case Err(e) =>
        r := Err(e);
      case Ok(role) =>
        roles := roles + [role];
        r := Ok(RoleView(role, AssignmentCount(users, role.id)));
    }

    /** `updateRole`: `Ok(None)` for an unknown id (`null`), otherwise the first role with the id is updated. */
    method UpdateRole(
      id: string, name: Option<string>, description: Option<Option<string>>,
      permissions: Option<seq<string>>, now: Time) returns (r: Result<Option<RoleView>, StoreError>)
      modifies this`roles
      ensures match Seqs.FirstIndex(old(roles), RoleIdIs(id))
              case None => r == Ok(None) && roles == old(roles)
              case Some(k) =>
                match UpdatedRole(old(roles), old(roles)[k], name, description, permissions, now)
                case Err(e) => r == Err(e) && roles == old(roles)
                case Ok(role) => roles == old(roles)[k := role] && r == Ok(Some(RoleView(role, AssignmentCount(users, role.id))))
    {
      match Seqs.FirstIndex(roles, RoleIdIs(id))
      case None =>
        r := Ok(None);
      case Some(k) =>
        match UpdatedRole(roles, roles[k], name, description, permissions, now)
        case Err(e) =>
          r := Err(e);
        case Ok(role) =>
          roles := roles[k := role];
          r := Ok(Some(RoleView(role, AssignmentCount(users, role.id))));
    }

    /** `deleteRole`: the checks, then the loop moving every holder to the replacement role, then the removal. */
    method DeleteRole(id: string, reassignRoleId: Option<string>) returns (r: Result<DeleteOutcome, StoreError>)
      modifies this`roles, this`users
      ensures match DeleteRoleResult(old(roles), old(users), id, reassignRoleId, churchId)
              case Err(e) => r == Err(e) && roles == old(roles) && users == old(users)
              case Ok(d) => r == Ok(d.outcome) && roles == d.roles && users == d.users
    {
      var found := Seqs.FirstIndex(roles, RoleIdIs(id));
      if found.None? {
        return Ok(DeleteOutcome(false, 0));
      }
      var k := found.value;
      var role := roles[k];
      if !role.isDeletable || role.slug == Some("admin") {
        return Err(RoleNotDeletable);
      }
      var reassigned := 0;
      if AssignmentCount(users, id) > 0 {
        if !AuditLogs.Truthy(reassignRoleId) {
          return Err(ReassignRequired);
        }
        var resolved := RoleRules.ResolveRoleId(roles, reassignRoleId);
        if resolved == id {
          return Err(ReassignSameRole);
        }
        users, reassigned := ReassignHolders(users, id, resolved, churchId);
      }
      roles := roles[..k] + roles[k + 1..];
      r := Ok(DeleteOutcome(true, reassigned));
    }

    // --------------------------------------------------------- announcements

    /** `markAnnouncementRead`: answers with the existing read of the pair, or records a new one. */
    method MarkAnnouncementRead(announcementId: string, userId: string, now: Time) returns (read: AnnouncementRead)
      modifies this`announcementReads
      ensures (announcementReads, read) == MarkRead(old(announcementReads), announcementId, userId, now)
    {
      var already := Seqs.FirstIndex(announcementReads, ReadBy(announcementId, userId));
      if already.Some? {
        return announcementReads[already.value];
      }
      read := AnnouncementRead(announcementId, userId, now);
      announcementReads := announcementReads + [read];
    }

    // ---------------------------------------------------------------- groups

    /** `addGroupMember`: appends the member to the group, or reports why not. */
    method AddGroupMember(
      groupId: string, userId: string, role: Option<string>, status: Option<string>,
      joinedAt: Option<Time>, now: Time) returns (r: Result<GroupMember, StoreError>)
      modifies this`groups
      ensures match AddMember(old(groups), users, groupId, userId, role, status, joinedAt, now)
              case Err(e) => r == Err(e) && groups == old(groups)
              case Ok(added) => r == Ok(added.1) && groups == added.0
    {
      match AddMember(groups, users, groupId, userId, role, status, joinedAt, now)
      case Err(e) =>
        r := Err(e);
      case Ok(added) =>
        groups := added.0;
        r := Ok(added.1);
    }

    // --------------------------------------------------------- request types

    /**
     * `reorderRequestTypes`: splits the types into the listed and the others,
     * numbers the listed ones by their position in `ids`, sorts everything by
     * order and records an audit entry (`auditId` is the generated entry id).
     */
    method ReorderRequestTypes(ids: seq<string>, actorUserId: string, auditId: string, now: Time) returns (r: seq<RequestType>)
      modifies this`requestTypes, this`auditLogs
      ensures requestTypes == Reorder(old(requestTypes), ids) && r == requestTypes
      ensures auditLogs == old(auditLogs) + [ReorderAudit(auditId, actorUserId, now)]
    {
      var reordered, others := Partition(requestTypes, ids);
      reordered := RenumberListed(reordered, ids);
      requestTypes := Sorting.SortBy(reordered + others, DisplayOrderKey, false);
      r := requestTypes;
      auditLogs := auditLogs + [ReorderAudit(auditId, actorUserId, now)];
    }

    /** The audit entry of a re-ordering by `actorUserId`. */
    function ReorderAudit(auditId: string, actorUserId: string, now: Time): (log: AuditLogs.AuditLog)
      reads this`users
      ensures log.churchId == churchId && log.actorUserId == actorUserId && log.createdAt == now
      ensures log.action == "requestType.reordered" && log.entity == "requestType" && log.entityId.None?
    {
      AuditLogs.NewAuditLog(auditId, None, churchId, actorUserId, "requestType.reordered", "requestType", None,
                            UserName(users, actorUserId) + " reordered request types", None, None, now)
    }

    // ------------------------------------------------------------ audit logs

    /** `listAuditLogs`: the page of `AuditLogs.ListAuditLogs` over the store's entries, each with its actor. */
    function ListAuditLogs(filter: AuditLogs.AuditLogFilter): (r: (seq<ListedAuditLog>, AuditLogs.AuditLogPage))
      reads this`auditLogs, this`users
      ensures r.1 == AuditLogs.ListAuditLogs(auditLogs, filter, churchId)
      ensures |r.0| == |r.1.items|
      ensures forall k :: 0 <= k < |r.0| ==> r.0[k].log == r.1.items[k] && r.0[k].actor == ActiveUser(users, r.1.items[k].actorUserId)
    {
      var page := AuditLogs.ListAuditLogs(auditLogs, filter, churchId);
      (Listing(page.items, users), page)
    }
  }

  /** A bulk operation's loop: each id in turn gets the single-record step, and its outcome is recorded. */
  method RunBulk<D>(t: seq<Row<D>>, ids: seq<string>, step: Step, reason: string) returns (after: seq<Row<D>>, report: BulkReport)
    ensures (after, report) == Bulk(t, ids, step, reason)
  {
    after, report := t, BulkReport(0, []);
    for i := 0 to |ids|
      invariant (after, report) == Bulk(t, ids[..i], step, reason)
    {
      BulkNext(t, ids, i, step, reason, after, report);
      after, report := BulkOne(after, report, ids[i], step, reason);
    }
    assert ids[..|ids|] == ids;
  }

  /**
   * The household bulk loop: each id in turn gets the single-record step, whose
   * un-awaited promise has no `success`, so the id is always reported failed.
   */
  method RunBulkAsWritten<D>(t: seq<Row<D>>, ids: seq<string>, step: Step, reason: string)
    returns (after: seq<Row<D>>, report: BulkReport)
    ensures (after, report) == BulkAsWritten(t, ids, step, reason)
  {
    after, report := t, BulkReport(0, []);
    for i := 0 to |ids|
      invariant (after, report) == BulkAsWritten(t, ids[..i], step, reason)
    {
      assert ids[..i + 1][..i] == ids[..i];
      var c := Apply(after, ids[i], step);
      after := c.table;
      report := report.(failed := report.failed + [Failure(ids[i], reason)]);
    }
    assert ids[..|ids|] == ids;
  }

  /** The run over the first `i + 1` ids is the run over the first `i` followed by the step for id `i`. */
  lemma BulkNext<D>(t: seq<Row<D>>, ids: seq<string>, i: nat, step: Step, reason: string, before: seq<Row<D>>, report: BulkReport)
    requires i < |ids| && (before, report) == Bulk(t, ids[..i], step, reason)
    ensures var c := Apply(before, ids[i], step);
            Bulk(t, ids[..i + 1], step, reason)
              == (c.table, if c.success then report.(success := report.success + 1)
                           else report.(failed := report.failed + [Failure(ids[i], reason)]))
  {
    BulkStep(t, ids[..i], ids[i], step, reason);
    assert ids[..i + 1] == ids[..i] + [ids[i]];
  }

  /** One id of a bulk operation: the single-record step, and its outcome counted or reported. */
  method BulkOne<D>(t: seq<Row<D>>, report: BulkReport, id: string, step: Step, reason: string)
    returns (after: seq<Row<D>>, next: BulkReport)
    ensures var c := Apply(t, id, step);
            && after == c.table
            && next == if c.success then report.(success := report.success + 1)
                       else report.(failed := report.failed + [Failure(id, reason)])
  {
    var c := Apply(t, id, step);
    after := c.table;
    next := report;
    if c.success {
      next := next.(success := next.success + 1);
    } else {
      next := next.(failed := next.failed + [Failure(id, reason)]);
    }
  }

  /** The loop of `hardDeleteFund` that clears `fundId` on every contribution referring to the fund. */
  method ClearFundReferences(cs: seq<Row<Contribution>>, id: string) returns (r: seq<Row<Contribution>>)
    ensures r == ClearFund(cs, id)
  {
    r := cs;
    for i := 0 to |cs|
      invariant |r| == |cs|
      invariant forall k :: 0 <= k < i && cs[k].data.fundId == Some(id) ==> r[k] == cs[k].(data := cs[k].data.(fundId := None))
      invariant forall k :: 0 <= k < |cs| && (i <= k || cs[k].data.fundId != Some(id)) ==> r[k] == cs[k]
    {
      if r[i].data.fundId == Some(id) {
        r := r[i := r[i].(data := r[i].data.(fundId := None))];
      }
    }
  }

  /** The loop of `deleteRole` that moves every holder of role `id` to `resolved`, counting them. */
  method ReassignHolders(us: seq<StoreUser>, id: string, resolved: string, churchId: string) returns (r: seq<StoreUser>, reassigned: nat)
    requires resolved != id
    ensures r == Reassign(us, id, resolved, churchId)
    ensures reassigned == AssignmentCount(us, id)
  {
    r, reassigned := us, 0;
    for i := 0 to |us|
      invariant |r| == |us|
      invariant forall k :: 0 <= k < i && Holds(us[k], id) ==> r[k] == us[k].(roles := ReassignedRoles(us[k].roles, id, resolved, churchId))
      invariant forall k :: 0 <= k < |us| && (i <= k || !Holds(us[k], id)) ==> r[k] == us[k]
      invariant reassigned == CountHolders(us[..i], id)
    {
      assert us[..i + 1][..i] == us[..i];
      if Holds(r[i], id) {
        r := r[i := r[i].(roles := ReassignedRoles(r[i].roles, id, resolved, churchId))];
        reassigned := reassigned + 1;
      }
    }
    assert us[..|us|] == us;
    CountHoldersIsAssignmentCount(us, id);
  }

  /** The split of `reorderRequestTypes`: the types whose id is listed, and the others, each in table order. */
  method Partition(types: seq<RequestType>, ids: seq<string>) returns (listed: seq<RequestType>, others: seq<RequestType>)
    ensures listed == Seqs.Filter(types, Listed(ids))
    ensures others == Seqs.Filter(types, Unlisted(ids))
  {
    listed, others := [], [];
    for i := 0 to |types|
      invariant listed == Seqs.Filter(types[..i], Listed(ids))
      invariant others == Seqs.Filter(types[..i], Unlisted(ids))
    {
      PartitionStep(types, i, ids);
      if types[i].id in ids {
        listed := listed + [types[i]];
      } else {
        others := others + [types[i]];
      }
    }
    assert types[..|types|] == types;
  }

  /** One more type extends exactly one side of the split. */
  lemma PartitionStep(types: seq<RequestType>, i: nat, ids: seq<string>)
    requires i < |types|
    ensures Seqs.Filter(types[..i + 1], Listed(ids))
            == if types[i].id in ids then Seqs.Filter(types[..i], Listed(ids)) + [types[i]] else Seqs.Filter(types[..i], Listed(ids))
    ensures Seqs.Filter(types[..i + 1], Unlisted(ids))
            == if types[i].id in ids then Seqs.Filter(types[..i], Unlisted(ids)) else Seqs.Filter(types[..i], Unlisted(ids)) + [types[i]]
  {
    assert types[..i + 1] == types[..i] + [types[i]];
    Seqs.FilterAppend(types[..i], types[i], Listed(ids));
    Seqs.FilterAppend(types[..i], types[i], Unlisted(ids));
  }

  /** The numbering loop of `reorderRequestTypes`: position `index` of `ids` gives order `index + 1`. */
  method RenumberListed(s: seq<RequestType>, ids: seq<string>) returns (r: seq<RequestType>)
    ensures r == Renumber(s, ids)
  {
    r := s;
    for index := 0 to |ids|
      invariant r == Renumber(s, ids[..index])
    {
      assert ids[..index + 1][..index] == ids[..index];
      var found := Seqs.FirstIndex(r, TypeIdIs(ids[index]));
      if found.Some? {
        r := r[found.value := r[found.value].(displayOrder := index + 1)];
      }
    }
    assert ids[..|ids|] == ids;
  }

  /** Each listed entry with its actor looked up among `users`. */
  function Listing(items: seq<AuditLogs.AuditLog>, users: seq<StoreUser>): (r: seq<ListedAuditLog>)
    ensures |r| == |items|
    ensures forall k :: 0 <= k < |r| ==> r[k].log == items[k] && r[k].actor == ActiveUser(users, items[k].actorUserId)
  {
    seq(|items|, k requires 0 <= k < |items| => ListedAuditLog(items[k], ActiveUser(users, items[k].actorUserId)))
  }

  /** `p => p.documentId !== id`. */
  function OtherDocument(id: string): DocumentPermission -> bool
  {
    (p: DocumentPermission) => p.documentId != id
  }
}
