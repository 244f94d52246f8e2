/** The client's record types (src/models/block.ts, src/models/document.ts,
    src/models/auth.ts) and the request payloads it sends over the hub. */
module Models {
  import opened Wrappers

  /** A block of a document. `sentOn` and `editedOn` are ISO time stamps kept
      only for display. */
  datatype Block = Block(
    id: int,
    text: string,
    documentId: int,
    userId: int,
    sentOn: string,
    editedOn: Option<string>)

  datatype Document = Document(id: int, name: string, creatorId: int)

  datatype DocumentRole = Creator | Editor | Viewer

  /** The name under which a role travels in requests and in the role
      `<select>`. */
  function RoleName(r: DocumentRole): (s: string)
    ensures IsRoleName(s)
  {
    match r
    case Creator => "Creator"
    case Editor => "Editor"
    case Viewer => "Viewer"
  }

  /** One of the three names a role travels under. */
  predicate IsRoleName(s: string) {
    s == "Creator" || s == "Editor" || s == "Viewer"
  }

  /** Names tell roles apart. */
  lemma RoleNameInjective(a: DocumentRole, b: DocumentRole)
    ensures RoleName(a) == RoleName(b) <==> a == b
  {
  }

  /** The role names are exactly the names of roles. */
  lemma IsRoleNameIff(s: string)
    ensures IsRoleName(s) <==> exists r :: RoleName(r) == s
  {
    if s == "Creator" {
      assert RoleName(Creator) == s;
    } else if s == "Editor" {
      assert RoleName(Editor) == s;
    } else if s == "Viewer" {
      assert RoleName(Viewer) == s;
    }
  }

  datatype UserDocumentDto = UserDocumentDto(document: Document, role: DocumentRole)

  datatype EditBlockRequest = EditBlockRequest(id: int, editedText: string)

  datatype SendBlockRequest = SendBlockRequest(text: string, documentId: int)

  /** The `CreateDocument` payload: parallel arrays of user names and role names. */
  datatype CreateDocumentRequest = CreateDocumentRequest(
    name: string,
    usernames: seq<string>,
    roles: seq<string>)

  datatype BlockImageRequest = BlockImageRequest(blockId: int, url: string, uploadedOn: string, userId: int)

  /** The file part of `SendBlockImage`: the bytes as a plain array of numbers. */
  datatype FileUpload = FileUpload(fileName: string, contentType: string, content: seq<int>)

  datatype RegisterModel = RegisterModel(
    email: string,
    username: string,
    password: string,
    name: string,
    surname: string)
}
