/**
 * The immutable document entity: a validating factory, reconstruction from
 * stored data, soft deletion and title/description updates, each returning a
 * new value. Fresh ids and the current time are parameters.
 */
module DocumentEntity {
  import opened Wrappers
  import JsString

  type Time = int

  datatype Document = Document(
    id: string, churchId: string, uploaderProfileId: string,
    fileName: string, fileType: string, title: string, description: Option<string>,
    storageKey: string, fileData: string,
    createdAt: Time, updatedAt: Time, deletedAt: Option<Time>)

  /** What `Document.create` is given: everything but the id and the timestamps. */
  datatype NewDocument = NewDocument(
    churchId: string, uploaderProfileId: string,
    fileName: string, fileType: string, title: string, description: Option<string>,
    storageKey: string, fileData: string)

  /** The fields `update` may replace; `None` leaves a field as it is. */
  datatype DocumentUpdate = DocumentUpdate(title: Option<string>, description: Option<string>)

  const TitleRequired := "Title is required"
  const FileNameRequired := "File name is required"
  const FileDataRequired := "File data is required"

  predicate Blank(s: string)
  {
    JsString.Trim(s) == []
  }

  /** `Document.create`: title, file name and file data must not be blank, checked in that order. */
  function Create(props: NewDocument, id: string, now: Time): (r: Result<Document, string>)
    ensures Blank(props.title) ==> r == Err(TitleRequired)
    ensures !Blank(props.title) && Blank(props.fileName) ==> r == Err(FileNameRequired)
    ensures !Blank(props.title) && !Blank(props.fileName) && Blank(props.fileData) ==> r == Err(FileDataRequired)
    ensures r.Ok? <==> !Blank(props.title) && !Blank(props.fileName) && !Blank(props.fileData)
    ensures r.Ok? ==> r.value.id == id && r.value.createdAt == now && r.value.updatedAt == now && r.value.deletedAt.None?
    ensures r.Ok? ==> Props(r.value) == props
  {
    if Blank(props.title) then Err(TitleRequired)
    else if Blank(props.fileName) then Err(FileNameRequired)
    else if Blank(props.fileData) then Err(FileDataRequired)
    else Ok(Document(id, props.churchId, props.uploaderProfileId, props.fileName, props.fileType,
                     props.title, props.description, props.storageKey, props.fileData, now, now, None))
  }

  /** The fields a caller supplies, read back from a document. */
  function Props(d: Document): NewDocument
  {
    NewDocument(d.churchId, d.uploaderProfileId, d.fileName, d.fileType, d.title, d.description, d.storageKey, d.fileData)
  }

  /** `Document.reconstruct`: the stored fields, taken as they are. */
  function Reconstruct(stored: Document): Document
  {
    stored
  }

  predicate IsDeleted(d: Document)
  {
    d.deletedAt.Some?
  }

  /** `markAsDeleted`: a copy with the deletion time set. */
  function MarkAsDeleted(d: Document, now: Time): (r: Document)
    ensures IsDeleted(r) && r.deletedAt == Some(now)
  {
    d.(deletedAt := Some(now))
  }

  /** `update`: a copy with the given title/description and the update time. */
  function Update(d: Document, u: DocumentUpdate, now: Time): (r: Document)
    ensures r.updatedAt == now
    ensures r.title == u.title.OrElse(d.title) && r.description == (if u.description.Some? then u.description else d.description)
  {
    d.(title := u.title.OrElse(d.title),
       description := if u.description.Some? then u.description else d.description,
       updatedAt := now)
  }

  /** Soft deletion changes nothing but `deletedAt`, and the original value is still not deleted if it was not. */
  lemma MarkAsDeletedKeepsFields(d: Document, now: Time)
    ensures var r := MarkAsDeleted(d, now);
            && Props(r) == Props(d) && r.id == d.id && r.createdAt == d.createdAt && r.updatedAt == d.updatedAt
            && IsDeleted(r) && (IsDeleted(d) <==> d.deletedAt.Some?)
  {
  }

  /** An update keeps the id, church, file, creation time and deletion state; an empty update only moves `updatedAt`. */
  lemma UpdateKeepsFields(d: Document, u: DocumentUpdate, now: Time)
    ensures var r := Update(d, u, now);
            && r.id == d.id && r.churchId == d.churchId && r.uploaderProfileId == d.uploaderProfileId
            && r.fileName == d.fileName && r.fileType == d.fileType && r.storageKey == d.storageKey
            && r.fileData == d.fileData && r.createdAt == d.createdAt && r.deletedAt == d.deletedAt
            && (IsDeleted(r) <==> IsDeleted(d))
            && (u == DocumentUpdate(None, None) ==> r == d.(updatedAt := now))
  {
  }

  /** Reconstruction performs no validation: a stored document with a blank title comes back as it is, though `create` refuses it. */
  lemma ReconstructDoesNotValidate(stored: Document, id: string, now: Time)
    requires Blank(stored.title)
    ensures Reconstruct(stored) == stored
    ensures Create(Props(stored), id, now) == Err(TitleRequired)
  {
  }

  /** A created document is live, and deleting it makes it deleted. */
  lemma CreateThenDelete(props: NewDocument, id: string, now: Time, later: Time)
    requires Create(props, id, now).Ok?
    ensures !IsDeleted(Create(props, id, now).value)
    ensures IsDeleted(MarkAsDeleted(Create(props, id, now).value, later))
  {
  }
}
