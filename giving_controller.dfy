/**
 * The giving controller: the role checks, body validation and member scoping
 * it applies before delegating to the giving service, and the mapping of the
 * service's `{success: false}` replies to Not Found. What the service does
 * with a call is not part of this module; a handler's outcome is either the
 * error it throws before calling the service or the call it makes.
 */
module GivingController {
  import opened Wrappers

  /** One entry of `request.user.roles`. */
  datatype RoleClaim = RoleClaim(churchId: string, role: string)

  /** `request.user`, when the guard attached one. */
  datatype Caller = Caller(id: Option<string>, roles: seq<RoleClaim>)

  datatype HttpError = BadRequest(message: string) | Forbidden(message: string) | NotFound(message: string)

  datatype ContributionFilter = ContributionFilter(memberId: Option<string>, fundId: Option<string>, from: Option<string>, to: Option<string>)

  /**
   * The endpoints. `ids` is `None` when the body's `ids` is not an array;
   * `q` is the deleted-funds search text.
   */
  datatype Request =
    | DeletedFunds(q: Option<string>)
    | BulkDeleteFunds(ids: Option<seq<string>>)
    | BulkUndeleteFunds(ids: Option<seq<string>>)
    | ListFunds
    | CreateFund(name: string, description: Option<string>)
    | UpdateFund(id: string)
    | HardDeleteFund(id: string)
    | DeleteFund(id: string)
    | UndeleteFund(id: string)
    | DeletedContributions(filter: ContributionFilter)
    | BulkDeleteContributions(ids: Option<seq<string>>)
    | BulkUndeleteContributions(ids: Option<seq<string>>)
    | Contributions(filter: ContributionFilter)
    | RecordContribution
    | UpdateContribution(id: string)
    | HardDeleteContribution(id: string)
    | DeleteContribution(id: string)
    | UndeleteContribution(id: string)
    | Summary
    | ExportCsv(filter: ContributionFilter)
  {
    predicate IsBulk()
    {
      BulkDeleteFunds? || BulkUndeleteFunds? || BulkDeleteContributions? || BulkUndeleteContributions?
    }

    /** The handlers that start with `ensureAdmin`. */
    predicate AdminOnly()
    {
      DeletedFunds? || HardDeleteFund? || HardDeleteContribution? || Summary? || ExportCsv?
    }

    /** The handlers that start with `ensureLeader`. */
    predicate LeaderOnly()
    {
      || IsBulk() || CreateFund? || UpdateFund? || DeleteFund? || UndeleteFund?
      || DeletedContributions? || RecordContribution? || UpdateContribution? || UndeleteContribution?
    }

    /** The handlers whose service reply `{success: false}` becomes Not Found. */
    predicate ChecksSuccess()
    {
      HardDeleteFund? || DeleteFund? || UndeleteFund? || HardDeleteContribution? || DeleteContribution? || UndeleteContribution?
    }
  }

  /** The service call a handler makes: the request as forwarded and the acting user's id. */
  datatype ServiceCall = ServiceCall(request: Request, actorId: Option<string>)

  const AdminRequired := "Admin role required"
  const LeaderRequired := "Leader or Admin role required"
  const IdsRequired := "ids must be a non-empty array"
  const ContributionsForbidden := "You are not authorized to view contributions."
  const CannotDelete := "Cannot delete contribution"

  /** `req.user?.roles ?? []`. */
  function RolesOf(user: Option<Caller>): seq<RoleClaim>
  {
    if user.Some? then user.value.roles else []
  }

  /** `roles.some(role => role.role === name)`. */
  predicate HasRole(user: Option<Caller>, name: string)
  {
    exists k :: 0 <= k < |RolesOf(user)| && RolesOf(user)[k].role == name
  }

  predicate IsAdmin(user: Option<Caller>)
  {
    HasRole(user, "Admin")
  }

  predicate IsLeaderOrAdmin(user: Option<Caller>)
  {
    HasRole(user, "Leader") || HasRole(user, "Admin")
  }

  /** `ensureAdmin`: passes exactly when some role is Admin. */
  function EnsureAdmin(user: Option<Caller>): (r: Result<(), HttpError>)
    ensures r.Ok? <==> IsAdmin(user)
    ensures r.Err? ==> r.error == Forbidden(AdminRequired)
  {
    if IsAdmin(user) then Ok(()) else Err(Forbidden(AdminRequired))
  }

  /** `ensureLeader`: passes exactly when some role is Leader or Admin. */
  function EnsureLeader(user: Option<Caller>): (r: Result<(), HttpError>)
    ensures r.Ok? <==> IsLeaderOrAdmin(user)
    ensures r.Err? ==> r.error == Forbidden(LeaderRequired)
  {
    var isLeader := HasRole(user, "Leader");
    var isAdmin := HasRole(user, "Admin");
    if !isLeader && !isAdmin then Err(Forbidden(LeaderRequired)) else Ok(())
  }

  /** `req.user?.id`. */
  function ActorId(user: Option<Caller>): Option<string>
  {
    if user.Some? then user.value.id else None
  }

  /** `!Array.isArray(dto.ids) || dto.ids.length === 0`. */
  predicate BadIds(ids: Option<seq<string>>)
  {
    ids.None? || ids.value == []
  }

  /** `x || undefined` on an optional string. */
  function NonEmpty(s: Option<string>): (r: Option<string>)
    ensures r.Some? <==> s.Some? && s.value != ""
    ensures r.Some? ==> r == s
  {
    if s.Some? && s.value != "" then s else None
  }

  /**
   * The member filter of the contribution list: a caller who is neither
   * Leader nor Admin sees only their own contributions and needs an id;
   * everyone else gets the requested member id, if non-empty.
   */
  function EffectiveMemberId(user: Option<Caller>, memberId: Option<string>): Result<Option<string>, HttpError>
  {
    var isAdmin := HasRole(user, "Admin");
    var isLeader := HasRole(user, "Leader");
    var id := ActorId(user);
    if !isAdmin && !isLeader && !(id.Some? && id.value != "") then Err(Forbidden(ContributionsForbidden))
    else if !isAdmin && !isLeader then Ok(id)
    else Ok(NonEmpty(memberId))
  }

  /** The checks a handler makes before it calls the service, and the call it then makes. */
  function Handle(user: Option<Caller>, req: Request): Result<ServiceCall, HttpError>
  {
    var call := ServiceCall(req, ActorId(user));
    if req.AdminOnly() then
      if EnsureAdmin(user).Err? then Err(EnsureAdmin(user).error) else Ok(call)
    else if req.LeaderOnly() then
      if EnsureLeader(user).Err? then Err(EnsureLeader(user).error)
      else if req.IsBulk() && BadIds(req.ids) then Err(BadRequest(IdsRequired))
      else Ok(call)
    else if req.DeleteContribution? then
      if !HasRole(user, "Admin") && !HasRole(user, "Leader") then Err(Forbidden(CannotDelete)) else Ok(call)
    else if req.Contributions? then
      var member := EffectiveMemberId(user, req.filter.memberId);
      if member.Err? then Err(member.error)
      else Ok(ServiceCall(Contributions(req.filter.(memberId := member.value)), ActorId(user)))
    else Ok(call)
  }

  /** The Not Found message of each handler that checks `result.success`. */
  function NotFoundMessage(req: Request): string
    requires req.ChecksSuccess()
  {
    match req
    case HardDeleteFund(_) => "Fund not found"
    case DeleteFund(_) => "Fund not found"
    case UndeleteFund(_) => "Fund not found or not deleted"
    case HardDeleteContribution(_) => "Contribution not found"
    case DeleteContribution(_) => "Contribution not found"
    case UndeleteContribution(_) => "Contribution not found or not deleted"
  }

  /** What a single delete, hard delete or undelete handler does with the service's `success` flag. */
  function Reply(req: Request, success: bool): (r: Result<bool, HttpError>)
    requires req.ChecksSuccess()
    ensures r.Ok? <==> success
    ensures r.Ok? ==> r.value
    ensures r.Err? ==> r.error == NotFound(NotFoundMessage(req))
  {
    if !success then Err(NotFound(NotFoundMessage(req))) else Ok(success)
  }

  /** Hard deletes, the deleted-funds list, the summary and the CSV export are refused to anyone but an Admin, and granted to every Admin. */
  lemma AdminOnlyEndpoints(user: Option<Caller>, req: Request)
    requires req.AdminOnly()
    ensures Handle(user, req).Ok? <==> IsAdmin(user)
    ensures !IsAdmin(user) ==> Handle(user, req) == Err(Forbidden(AdminRequired))
    ensures IsAdmin(user) ==> Handle(user, req) == Ok(ServiceCall(req, ActorId(user)))
  {
  }

  /**
   * A bulk endpoint checks the role first, then rejects a missing, non-array
   * or empty `ids` with Bad Request; only a Leader or Admin with at least one
   * id reaches the service, which receives the ids unchanged.
   */
  lemma BulkEndpoints(user: Option<Caller>, req: Request)
    requires req.IsBulk()
    ensures !IsLeaderOrAdmin(user) ==> Handle(user, req) == Err(Forbidden(LeaderRequired))
    ensures IsLeaderOrAdmin(user) && BadIds(req.ids) ==> Handle(user, req) == Err(BadRequest(IdsRequired))
    ensures Handle(user, req).Ok? <==> IsLeaderOrAdmin(user) && !BadIds(req.ids)
    ensures Handle(user, req).Ok? ==> Handle(user, req).value.request.ids == req.ids && |req.ids.value| > 0
  {
  }

  /**
   * The contribution list of a caller who is neither Leader nor Admin is
   * always scoped to the caller's own id, whatever member id was asked for;
   * without an id the call is forbidden. Leaders and Admins get the member
   * id they asked for.
   */
  lemma ContributionsScoping(user: Option<Caller>, filter: ContributionFilter)
    ensures var r := Handle(user, Contributions(filter));
            var own := ActorId(user);
            && (!IsLeaderOrAdmin(user) && (own.None? || own.value == "") ==> r == Err(Forbidden(ContributionsForbidden)))
            && (!IsLeaderOrAdmin(user) && own.Some? && own.value != "" ==>
                  r.Ok? && r.value.request == Contributions(filter.(memberId := own)))
            && (IsLeaderOrAdmin(user) ==> r.Ok? && r.value.request == Contributions(filter.(memberId := NonEmpty(filter.memberId))))
  {
  }

  /** Two members asking for different member ids get the same scoped call. */
  lemma MemberCannotWidenFilter(user: Option<Caller>, filter: ContributionFilter, other: Option<string>)
    requires !IsLeaderOrAdmin(user)
    ensures Handle(user, Contributions(filter)) == Handle(user, Contributions(filter.(memberId := other)))
  {
  }

  /** Every handler except the contribution list forwards the request as received. */
  lemma ForwardsUnchanged(user: Option<Caller>, req: Request)
    requires !req.Contributions?
    ensures Handle(user, req).Ok? ==> Handle(user, req).value == ServiceCall(req, ActorId(user))
  {
  }

  /** Soft delete of a contribution needs Leader or Admin, with its own message; listing funds needs nothing. */
  lemma OtherGates(user: Option<Caller>, id: string)
    ensures Handle(user, DeleteContribution(id)).Ok? <==> IsLeaderOrAdmin(user)
    ensures !IsLeaderOrAdmin(user) ==> Handle(user, DeleteContribution(id)) == Err(Forbidden(CannotDelete))
    ensures Handle(user, ListFunds) == Ok(ServiceCall(ListFunds, ActorId(user)))
  {
  }

  /** Leader-only handlers other than the bulk ones pass exactly for Leaders and Admins. */
  lemma LeaderEndpoints(user: Option<Caller>, req: Request)
    requires req.LeaderOnly() && !req.IsBulk()
    ensures Handle(user, req).Ok? <==> IsLeaderOrAdmin(user)
    ensures !IsLeaderOrAdmin(user) ==> Handle(user, req) == Err(Forbidden(LeaderRequired))
  {
  }

  /** No request is both Admin-only and Leader-only, so each handler runs one role check. */
  lemma OneRoleCheck(req: Request)
    ensures !(req.AdminOnly() && req.LeaderOnly())
  {
  }
}
