/** The frontend's records (frontend/src/types/index.ts) as the components see them. */
module ClientTypes {
  import opened Wrappers

  /** `UserRole` values. On the client a role is the string the API sent, so an
      unexpected value is representable. */
  const InventorRole := "INVENTOR"
  const LawyerRole := "LAWYER"
  const AdminRole := "ADMIN"

  datatype User = User(
    id: nat,
    email: string,
    role: string,
    fullName: Option<string>,
    company: Option<string>,
    createdAt: string)

  datatype AuthResponse = AuthResponse(accessToken: string, refreshToken: string, tokenType: string, user: User)

  /** A comment; `createdAt` is its timestamp in milliseconds. */
  datatype Comment = Comment(
    id: int,
    disclosureId: int,
    authorId: int,
    content: string,
    parentCommentId: Option<int>,
    createdAt: int,
    selectedText: Option<string>,
    selectionStart: Option<int>,
    selectionEnd: Option<int>)

  /** The fields of a disclosure's `content` that the pages read; `None` is `undefined`. */
  datatype DisclosureContent = DisclosureContent(
    problem: Option<string>,
    solution: Option<string>,
    technicalDetails: Option<string>,
    advantages: Option<string>,
    priorArt: Option<string>)

  datatype Disclosure = Disclosure(id: int, title: string, content: DisclosureContent)
}
