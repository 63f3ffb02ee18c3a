/** The backend's rows and enums (backend/app/models) and the access rule that the
    endpoints repeat: an inventor sees its own disclosures, a lawyer the ones assigned to
    it, an admin all of them. */
module Domain {
  import opened Wrappers
  import opened Json

  datatype Role = Inventor | Lawyer | Admin

  /** `role.value`: the enum member's string. */
  function RoleValue(r: Role): string {
    match r
    case Inventor => "INVENTOR"
    case Lawyer => "LAWYER"
    case Admin => "ADMIN"
  }

  datatype DisclosureStatus = Draft | AiProcessing | ReadyForReview | InReview | RevisionRequested | Approved

  datatype AiStatus = Pending | Processing | Completed | Failed

  datatype FileType = Drawing | Document | Image

  datatype User = User(id: int, email: string, role: Role, fullName: Option<string>)

  datatype Disclosure = Disclosure(
    id: int,
    title: string,
    status: DisclosureStatus,
    inventorId: int,
    assignedLawyerId: Option<int>,
    content: map<string, Json>)

  datatype Version = Version(id: int, disclosureId: int, versionNumber: int, snapshot: map<string, Json>, editedBy: int)

  /** A patent draft; `sections` is a JSON column and need not hold a dict. */
  datatype Draft = Draft(
    id: int,
    disclosureId: int,
    status: AiStatus,
    sections: Json,
    figureIndex: Json,
    fullText: Option<string>,
    aiModelUsed: Option<string>,
    processingError: Option<string>)

  datatype CommentRow = CommentRow(
    id: int,
    disclosureId: int,
    authorId: int,
    content: string,
    parentCommentId: Option<int>,
    selectedText: Option<string>,
    selectionStart: Option<int>,
    selectionEnd: Option<int>,
    createdAt: int)

  datatype MessageRow = MessageRow(id: int, disclosureId: int, senderId: int, content: string, isRead: bool, createdAt: int)

  datatype SessionRow = SessionRow(
    id: int,
    disclosureId: int,
    participants: seq<int>,
    transcript: Option<string>,
    aiSummary: Option<string>,
    metadata: Option<map<string, Json>>,
    startedAt: int,
    endedAt: Option<int>)

  datatype FileRow = FileRow(
    id: int,
    disclosureId: int,
    fileType: FileType,
    originalFilename: string,
    extension: string,
    size: nat,
    storageKey: string,
    bucket: string)

  /** Who may see a disclosure. */
  predicate MayView(u: User, d: Disclosure) {
    match u.role
    case Inventor => d.inventorId == u.id
    case Lawyer => d.assignedLawyerId == Some(u.id)
    case Admin => true
  }

  /** The lookup-then-permission block at the head of most endpoints: 404 when the
      disclosure is missing, then 403 when the user may not see it. */
  function CheckAccess(u: User, found: Option<Disclosure>): (r: Outcome<Disclosure>)
    ensures r.Ok? <==> found.Some? && MayView(u, found.value)
    ensures r.Ok? ==> r.value == found.value
    ensures found.None? ==> r == Fail(NotFound, "Disclosure not found")
    ensures found.Some? && !MayView(u, found.value) ==> r == Fail(Forbidden, "Access denied")
  {
    if found.None? then Fail(NotFound, "Disclosure not found")
    else if u.role == Inventor && found.value.inventorId != u.id then Fail(Forbidden, "Access denied")
    else if u.role == Lawyer && found.value.assignedLawyerId != Some(u.id) then Fail(Forbidden, "Access denied")
    else Ok(found.value)
  }

  /** The same permission block on a disclosure reached through a row's foreign key, where
      the code does not test that the disclosure exists: an inventor or a lawyer then
      reads a field of `None`, which raises; an admin passes without reading it. */
  function CheckLinkedAccess(u: User, found: Option<Disclosure>): (r: Outcome<()>)
    ensures found.Some? ==> (r.Ok? <==> MayView(u, found.value))
    ensures found.None? ==> (r.Ok? <==> u.role == Admin)
    ensures r.Fail? ==> r == (if found.Some? then Fail(Forbidden, "Access denied") else Fail(ServerError, "Internal Server Error"))
  {
    if u.role == Inventor then
      if found.None? then Fail(ServerError, "Internal Server Error")
      else if found.value.inventorId != u.id then Fail(Forbidden, "Access denied") else Ok(())
    else if u.role == Lawyer then
      if found.None? then Fail(ServerError, "Internal Server Error")
      else if found.value.assignedLawyerId != Some(u.id) then Fail(Forbidden, "Access denied") else Ok(())
    else Ok(())
  }

  /** An admin passes every access check, whoever owns the disclosure. */
  lemma AdminSeesAll(u: User, d: Disclosure)
    requires u.role == Admin
    ensures CheckAccess(u, Some(d)) == Ok(d)
    ensures CheckLinkedAccess(u, Some(d)) == Ok(())
  {
  }

  /** The two checks agree on a disclosure that exists. */
  lemma LinkedAgrees(u: User, d: Disclosure)
    ensures CheckLinkedAccess(u, Some(d)).Ok? <==> CheckAccess(u, Some(d)).Ok?
  {
  }
}
