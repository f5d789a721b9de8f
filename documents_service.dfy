/**
 * The documents service: it resolves the caller's role ids in the current
 * church, enforces the upload size limit and the validity of the roles a
 * document is shared with, and maps the store's empty answers to Not Found.
 * The data store is seen through what it answers: the current church, the
 * users `getUserById` finds, the roles `getRole` finds, and the results of
 * its document operations, which are parameters.
 */
module DocumentsService {
  import opened Wrappers
  import Seqs
  import JsString
  import StoreRecords

  type RoleAssignment = StoreRecords.RoleAssignment

  /** What the service reads from the data store. */
  datatype StoreView = StoreView(
    churchId: string,
    users: map<string, seq<RoleAssignment>>,
    roleChurch: map<string, string>)

  datatype ServiceError = NotFound(message: string) | BadRequest(message: string)

  /** The uploaded file; `size` is the buffer's length in bytes and `base64` its encoding. */
  datatype Upload = Upload(filename: string, mimetype: string, size: nat, base64: string)

  datatype CreateDto = CreateDto(title: string, description: Option<string>, roleIds: seq<string>)
  datatype UpdateDto = UpdateDto(title: Option<string>, description: Option<string>, roleIds: Option<seq<string>>)

  /** The arguments of `createDocument`, in order. */
  datatype CreateCall = CreateCall(
    churchId: string, uploaderId: string, fileName: string, fileType: string,
    title: string, description: Option<string>, fileData: string, roleIds: seq<string>, actorId: string)

  /** The arguments of `updateDocument`, in order. */
  datatype UpdateCall = UpdateCall(id: string, title: Option<string>, description: Option<string>, roleIds: Option<seq<string>>, actorId: string)

  /** What `delete`, `hardDelete` and `undelete` return on success. */
  datatype Done = Done(success: bool, message: string)

  datatype DownloadLink = DownloadLink(url: string, expiresAt: int)
  datatype Download = Download(fileName: string, data: string)

  /** 10 MB, the largest upload the mock storage accepts. */
  const MaxFileBytes := 10 * 1024 * 1024
  /** One hour, the lifetime of a download link, in milliseconds. */
  const LinkLifetimeMs := 60 * 60 * 1000

  const UserNotFound := "User not found"
  const NoAccess := "Document not found or access denied"
  const TooLarge := "File size exceeds 10MB limit"
  const DocumentNotFound := "Document not found"
  const NotDeleted := "Document not found or not deleted"

  /** `user.roles.filter(r => r.churchId === churchId).map(r => r.roleId)`. */
  function ChurchRoleIds(roles: seq<RoleAssignment>, churchId: string): (ids: seq<string>)
    ensures |ids| <= |roles|
    ensures forall id :: id in ids <==> exists k :: 0 <= k < |roles| && roles[k].churchId == churchId && roles[k].roleId == id
  {
    if roles == [] then []
    else
      var init := ChurchRoleIds(roles[..|roles| - 1], churchId);
      var last := roles[|roles| - 1];
      assert forall k :: 0 <= k < |roles| - 1 ==> roles[..|roles| - 1][k] == roles[k];
      if last.churchId == churchId then init + [last.roleId] else init
  }

  /** The role ids of the caller in the current church, or Not Found for an unknown user. */
  function CallerRoleIds(store: StoreView, userId: string): (r: Result<seq<string>, ServiceError>)
    ensures r.Err? <==> userId !in store.users
    ensures r.Err? ==> r.error == NotFound(UserNotFound)
    ensures r.Ok? ==> r.value == ChurchRoleIds(store.users[userId], store.churchId)
  {
    if userId !in store.users then Err(NotFound(UserNotFound))
    else Ok(ChurchRoleIds(store.users[userId], store.churchId))
  }

  /** `list`: the store's documents visible to those role ids. */
  function List<D>(store: StoreView, userId: string, listDocuments: (string, seq<string>) -> D): Result<D, ServiceError>
  {
    var ids := CallerRoleIds(store, userId);
    if ids.Err? then Err(ids.error) else Ok(listDocuments(store.churchId, ids.value))
  }

  /** The document with permissions as the store finds it for the caller, as shared by `getDetail`, `getDownloadUrl` and `downloadFile`. */
  function Accessible<D>(store: StoreView, id: string, userId: string, find: (string, seq<string>) -> Option<D>): Result<D, ServiceError>
  {
    var ids := CallerRoleIds(store, userId);
    if ids.Err? then Err(ids.error)
    else
      var doc := find(id, ids.value);
      if doc.None? then Err(NotFound(NoAccess)) else Ok(doc.value)
  }

  /** `getDetail`. */
  function GetDetail<D>(store: StoreView, id: string, userId: string, find: (string, seq<string>) -> Option<D>): Result<D, ServiceError>
  {
    Accessible(store, id, userId, find)
  }

  /** `getDownloadUrl`: a link carrying a fresh token, valid for one hour from now. */
  function GetDownloadUrl<D>(store: StoreView, id: string, userId: string, find: (string, seq<string>) -> Option<D>, token: string, now: int): (r: Result<DownloadLink, ServiceError>)
    ensures r.Ok? <==> Accessible(store, id, userId, find).Ok?
    ensures r.Ok? ==> r.value.expiresAt == now + LinkLifetimeMs
    ensures r.Ok? ==> JsString.StartsWith(r.value.url, "/api/v1/documents/" + id + "/download?token=")
  {
    var doc := Accessible(store, id, userId, find);
    if doc.Err? then Err(doc.error)
    else Ok(DownloadLink("/api/v1/documents/" + id + "/download?token=" + token, now + LinkLifetimeMs))
  }

  /** `downloadFile`: the stored file name and data; base64 decoding is not modelled. */
  function DownloadFile(store: StoreView, id: string, userId: string, find: (string, seq<string>) -> Option<StoreRecords.Document>, fileData: StoreRecords.Document -> string): Result<Download, ServiceError>
  {
    var doc := Accessible(store, id, userId, find);
    if doc.Err? then Err(doc.error) else Ok(Download(doc.value.fileName, fileData(doc.value)))
  }

  /** A role id is acceptable when `getRole` finds it in the current church. */
  predicate ValidRole(store: StoreView, roleId: string)
  {
    roleId in store.roleChurch && store.roleChurch[roleId] == store.churchId
  }

  function Invalid(store: StoreView): string -> bool
  {
    roleId => !ValidRole(store, roleId)
  }

  /** The message naming a rejected role id. */
  function InvalidRole(roleId: string): string
  {
    "Invalid role ID: " + roleId
  }

  /** The outcome of the role-validation loop: the first invalid role id is rejected by name. */
  function RoleCheck(store: StoreView, roleIds: seq<string>): Result<(), ServiceError>
  {
    var i := Seqs.FirstIndex(roleIds, Invalid(store));
    if i.Some? then Err(BadRequest(InvalidRole(roleIds[i.value]))) else Ok(())
  }

  /**
   * The roles pass exactly when every one exists in the current church;
   * otherwise the error names a role id that does not, and every role
   * id before it is valid.
   */
  lemma RoleCheckFacts(store: StoreView, roleIds: seq<string>)
    ensures RoleCheck(store, roleIds).Ok? <==> forall k :: 0 <= k < |roleIds| ==> ValidRole(store, roleIds[k])
    ensures RoleCheck(store, roleIds).Err? ==>
              exists i :: 0 <= i < |roleIds| && !ValidRole(store, roleIds[i])
                && (forall k :: 0 <= k < i ==> ValidRole(store, roleIds[k]))
                && RoleCheck(store, roleIds).error == BadRequest(InvalidRole(roleIds[i]))
  {
    var i := Seqs.FirstIndex(roleIds, Invalid(store));
    if i.Some? {
      assert Invalid(store)(roleIds[i.value]);
      forall k | 0 <= k < i.value ensures ValidRole(store, roleIds[k]) {
        assert !Invalid(store)(roleIds[k]);
      }
    } else {
      forall k | 0 <= k < |roleIds| ensures ValidRole(store, roleIds[k]) {
        assert !Invalid(store)(roleIds[k]);
      }
    }
  }

  /** The `for (const roleId of roleIds)` loop of `create` and `update`. */
  method ValidateRoles(store: StoreView, roleIds: seq<string>) returns (r: Result<(), ServiceError>)
    ensures r == RoleCheck(store, roleIds)
  {
    var i := 0;
    while i < |roleIds|
      invariant 0 <= i <= |roleIds|
      invariant forall j :: 0 <= j < i ==> !Invalid(store)(roleIds[j])
    {
      var roleId := roleIds[i];
      if !(roleId in store.roleChurch) || store.roleChurch[roleId] != store.churchId {
        Seqs.FirstIndexAt(roleIds, Invalid(store), i);
        return Err(BadRequest(InvalidRole(roleId)));
      }
      i := i + 1;
    }
    return Ok(());
  }

  /** What `create` does: the user check, then the size limit, then the roles; then the store call. */
  function CreateOutcome(store: StoreView, file: Upload, dto: CreateDto, userId: string): Result<CreateCall, ServiceError>
  {
    if userId !in store.users then Err(NotFound(UserNotFound))
    else if file.size > MaxFileBytes then Err(BadRequest(TooLarge))
    else if RoleCheck(store, dto.roleIds).Err? then Err(RoleCheck(store, dto.roleIds).error)
    else Ok(CreateCall(store.churchId, userId, file.filename, file.mimetype, dto.title, dto.description, file.base64, dto.roleIds, userId))
  }

  /** `create`: the call it makes to `createDocument`, or the error it throws first. */
  method Create(store: StoreView, file: Upload, dto: CreateDto, userId: string) returns (r: Result<CreateCall, ServiceError>)
    ensures r == CreateOutcome(store, file, dto, userId)
  {
    if userId !in store.users {
      return Err(NotFound(UserNotFound));
    }
    if file.size > 10 * 1024 * 1024 {
      return Err(BadRequest(TooLarge));
    }
    var roles := ValidateRoles(store, dto.roleIds);
    if roles.Err? {
      return Err(roles.error);
    }
    return Ok(CreateCall(store.churchId, userId, file.filename, file.mimetype, dto.title, dto.description, file.base64, dto.roleIds, userId));
  }

  /**
   * An oversized upload by a known user is refused whatever roles it names;
   * a document is created exactly when the user is known, the file is at
   * most 10 MB and every role belongs to the current church, and then the
   * call carries the caller as uploader and actor and the given roles.
   */
  lemma CreateRules(store: StoreView, file: Upload, dto: CreateDto, userId: string)
    ensures var r := CreateOutcome(store, file, dto, userId);
            && (userId !in store.users ==> r == Err(NotFound(UserNotFound)))
            && (userId in store.users && file.size > MaxFileBytes ==> r == Err(BadRequest(TooLarge)))
            && (r.Ok? <==> userId in store.users && file.size <= MaxFileBytes
                             && forall k :: 0 <= k < |dto.roleIds| ==> ValidRole(store, dto.roleIds[k]))
            && (r.Ok? ==> r.value.churchId == store.churchId && r.value.uploaderId == userId
                            && r.value.actorId == userId && r.value.roleIds == dto.roleIds && r.value.fileData == file.base64)
  {
    RoleCheckFacts(store, dto.roleIds);
  }

  /** What `update` does: roles are checked only when given, then an empty store answer is Not Found. */
  function UpdateOutcome<D>(store: StoreView, id: string, dto: UpdateDto, userId: string, updateDocument: UpdateCall -> Option<D>): Result<D, ServiceError>
  {
    if dto.roleIds.Some? && RoleCheck(store, dto.roleIds.value).Err? then Err(RoleCheck(store, dto.roleIds.value).error)
    else
      var doc := updateDocument(UpdateCall(id, dto.title, dto.description, dto.roleIds, userId));
      if doc.None? then Err(NotFound(DocumentNotFound)) else Ok(doc.value)
  }

  /** `update`. */
  method Update<D>(store: StoreView, id: string, dto: UpdateDto, userId: string, updateDocument: UpdateCall -> Option<D>) returns (r: Result<D, ServiceError>)
    ensures r == UpdateOutcome(store, id, dto, userId, updateDocument)
  {
    if dto.roleIds.Some? {
      var roles := ValidateRoles(store, dto.roleIds.value);
      if roles.Err? {
        return Err(roles.error);
      }
    }
    var doc := updateDocument(UpdateCall(id, dto.title, dto.description, dto.roleIds, userId));
    if doc.None? {
      return Err(NotFound(DocumentNotFound));
    }
    return Ok(doc.value);
  }

  /** Without `roleIds` no role is checked, and the only error is the store finding nothing. */
  lemma UpdateWithoutRoles<D>(store: StoreView, id: string, dto: UpdateDto, userId: string, updateDocument: UpdateCall -> Option<D>)
    requires dto.roleIds.None?
    ensures var r := UpdateOutcome(store, id, dto, userId, updateDocument);
            var answer := updateDocument(UpdateCall(id, dto.title, dto.description, None, userId));
            && (answer.None? ==> r == Err(NotFound(DocumentNotFound)))
            && (answer.Some? ==> r == Ok(answer.value))
  {
  }

  /** With `roleIds`, an invalid role stops the update before the store is asked. */
  lemma UpdateRejectsInvalidRole<D>(store: StoreView, id: string, dto: UpdateDto, userId: string, updateDocument: UpdateCall -> Option<D>, k: nat)
    requires dto.roleIds.Some? && k < |dto.roleIds.value| && !ValidRole(store, dto.roleIds.value[k])
    ensures UpdateOutcome(store, id, dto, userId, updateDocument).Err?
    ensures UpdateOutcome(store, id, dto, userId, updateDocument).error.BadRequest?
  {
    RoleCheckFacts(store, dto.roleIds.value);
  }

  /** `delete`, `hardDelete`, `undelete`: the store's answer, or Not Found. */
  function Removal(stored: bool, success: string, failure: string): (r: Result<Done, ServiceError>)
    ensures r.Ok? <==> stored
    ensures r.Ok? ==> r.value == Done(true, success)
    ensures r.Err? ==> r.error == NotFound(failure)
  {
    if !stored then Err(NotFound(failure)) else Ok(Done(true, success))
  }

  function Delete(deleted: bool): Result<Done, ServiceError>
  {
    Removal(deleted, "Document archived", DocumentNotFound)
  }

  function HardDelete(deleted: bool): Result<Done, ServiceError>
  {
    Removal(deleted, "Document permanently deleted", DocumentNotFound)
  }

  function Undelete(restored: bool): Result<Done, ServiceError>
  {
    Removal(restored, "Document restored", NotDeleted)
  }

  /** The three removal replies and their messages. */
  lemma RemovalReplies(answer: bool)
    ensures Delete(answer) == if answer then Ok(Done(true, "Document archived")) else Err(NotFound("Document not found"))
    ensures HardDelete(answer) == if answer then Ok(Done(true, "Document permanently deleted")) else Err(NotFound("Document not found"))
    ensures Undelete(answer) == if answer then Ok(Done(true, "Document restored")) else Err(NotFound("Document not found or not deleted"))
  {
  }

  /**
   * The store is asked only with the caller's role ids in the current
   * church: a role held in another church never grants access.
   */
  lemma OnlyCurrentChurchRoles(store: StoreView, userId: string, roleId: string)
    requires userId in store.users
    requires forall k :: 0 <= k < |store.users[userId]| && store.users[userId][k].roleId == roleId ==> store.users[userId][k].churchId != store.churchId
    ensures CallerRoleIds(store, userId).Ok? && roleId !in CallerRoleIds(store, userId).value
  {
  }

  /** An unknown user is refused by every read before the store's documents are consulted. */
  lemma UnknownUserRefused<D>(store: StoreView, id: string, userId: string, find: (string, seq<string>) -> Option<D>, listDocuments: (string, seq<string>) -> D)
    requires userId !in store.users
    ensures List(store, userId, listDocuments) == Err(NotFound(UserNotFound))
    ensures GetDetail(store, id, userId, find) == Err(NotFound(UserNotFound))
  {
  }

  /** A known user whom the store denies the document gets Not Found or access denied. */
  lemma DeniedDocument<D>(store: StoreView, id: string, userId: string, find: (string, seq<string>) -> Option<D>)
    requires userId in store.users
    requires find(id, ChurchRoleIds(store.users[userId], store.churchId)).None?
    ensures GetDetail(store, id, userId, find) == Err(NotFound(NoAccess))
  {
  }
}
