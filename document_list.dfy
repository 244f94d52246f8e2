/** The document list of src/components/DocumentList.tsx: the user's documents
    as pushed by the hub, and the form that creates a document together with
    the users invited to it. */
module DocumentList {
  import opened Wrappers
  import opened JsText
  import opened Models
  import opened SignalR

  // ----- the document list -----

  /** The `DocumentCreated` event: the new document is appended with the role
      `Creator`. */
  function DocumentCreated(docs: seq<UserDocumentDto>, doc: Document): (r: seq<UserDocumentDto>)
    ensures |r| == |docs| + 1 && r[..|docs|] == docs
    ensures r[|docs|] == UserDocumentDto(doc, Creator)
  {
    docs + [UserDocumentDto(doc, Creator)]
  }

  /** `docs.filter(d => d.document.id !== id)`, used both by the
      `DocumentDeleted` event and after a successful delete. */
  function DocumentDeleted(docs: seq<UserDocumentDto>, id: int): (r: seq<UserDocumentDto>)
    ensures |r| <= |docs|
    ensures forall d :: d in r <==> d in docs && d.document.id != id
  {
    if docs == [] then []
    else (if docs[0].document.id != id then [docs[0]] else []) + DocumentDeleted(docs[1..], id)
  }

  /** Deleting keeps the surviving entries in their order: it acts on each part
      of a list separately. */
  lemma {:induction false} DocumentDeletedAppend(a: seq<UserDocumentDto>, b: seq<UserDocumentDto>, id: int)
    ensures DocumentDeleted(a + b, id) == DocumentDeleted(a, id) + DocumentDeleted(b, id)
  {
    if a == [] {
      assert a + b == b;
    } else {
      assert (a + b)[0] == a[0];
      assert (a + b)[1..] == a[1..] + b;
      DocumentDeletedAppend(a[1..], b, id);
    }
  }

  /** Deleting an id no entry carries changes nothing. */
  lemma {:induction false} DocumentDeletedUnknownIsNoOp(docs: seq<UserDocumentDto>, id: int)
    requires forall k | 0 <= k < |docs| :: docs[k].document.id != id
    ensures DocumentDeleted(docs, id) == docs
  {
    if docs != [] {
      assert forall k | 0 <= k < |docs| - 1 :: docs[1..][k] == docs[k + 1];
      DocumentDeletedUnknownIsNoOp(docs[1..], id);
      assert docs == [docs[0]] + docs[1..];
    }
  }

  /** Deleting a document that was just created restores the list. */
  lemma DeleteUndoesCreate(docs: seq<UserDocumentDto>, doc: Document)
    requires forall k | 0 <= k < |docs| :: docs[k].document.id != doc.id
    ensures DocumentDeleted(DocumentCreated(docs, doc), doc.id) == docs
  {
    DocumentDeletedAppend(docs, [UserDocumentDto(doc, Creator)], doc.id);
    DocumentDeletedUnknownIsNoOp(docs, doc.id);
    assert [UserDocumentDto(doc, Creator)][1..] == [];
  }

  // ----- the invite rows of the creation form -----

  /** One row of the form: a user name and the role name picked for it. The
      role is kept as the string the `<select>` reports. */
  datatype InviteRow = InviteRow(username: string, role: string)

  datatype RowField = UsernameField | RoleField

  /** The row `addUserInput` appends and the form resets to. */
  function EmptyRow(): InviteRow {
    InviteRow("", "Viewer")
  }

  /** The role names the row's `<select>` offers. */
  predicate IsSelectableRole(s: string) {
    s == "Viewer" || s == "Editor"
  }

  predicate SelectableRoles(rows: seq<InviteRow>) {
    forall k | 0 <= k < |rows| :: IsSelectableRole(rows[k].role)
  }

  /** The rows the form starts with, as written: one empty row whose role is
      `'User'`, which is not a role and not an option of the `<select>`. */
  function InitialRowsAsWritten(): (rows: seq<InviteRow>)
    ensures |rows| == 1 && rows[0].username == ""
    ensures !IsSelectableRole(rows[0].role) && !IsRoleName(rows[0].role)
  {
    assert |"User"| != |"Creator"| && |"User"| != |"Editor"| && |"User"| != |"Viewer"|;
    [InviteRow("", "User")]
  }

  /** The rows the form starts with when the initial row agrees with the
      `<select>`, with `addUserInput` and with the reset after a create. */
  function InitialRows(): (rows: seq<InviteRow>)
    ensures |rows| == 1 && rows[0].username == ""
    ensures SelectableRoles(rows)
  {
    [EmptyRow()]
  }

  /** `handleUserChange(index, field, value)`: only the named field of the
      row at `index` changes. */
  function UpdateRow(rows: seq<InviteRow>, index: nat, field: RowField, value: string): (r: seq<InviteRow>)
    requires index < |rows|
    ensures |r| == |rows|
    ensures forall k | 0 <= k < |rows| && k != index :: r[k] == rows[k]
    ensures field == UsernameField ==> r[index] == InviteRow(value, rows[index].role)
    ensures field == RoleField ==> r[index] == InviteRow(rows[index].username, value)
  {
    match field
    case RoleField => rows[index := rows[index].(role := value)]
    case UsernameField => rows[index := rows[index].(username := value)]
  }

  /** `addUserInput`. */
  function AddRow(rows: seq<InviteRow>): (r: seq<InviteRow>)
    ensures |r| == |rows| + 1 && r[..|rows|] == rows && r[|rows|] == InviteRow("", "Viewer")
  {
    rows + [EmptyRow()]
  }

  /** `removeUserInput(index)`: `rows.filter((_, i) => i !== index)`. */
  function RemoveRow(rows: seq<InviteRow>, index: int): (r: seq<InviteRow>)
    ensures |r| == if 0 <= index < |rows| then |rows| - 1 else |rows|
    ensures forall k | 0 <= k < |r| :: r[k] == if 0 <= index <= k then rows[k + 1] else rows[k]
  {
    if 0 <= index < |rows| then rows[..index] + rows[index + 1..] else rows
  }

  /** Rows built by the form's own operations only ever carry a role the
      `<select>` offers. */
  lemma FormOperationsKeepSelectableRoles(rows: seq<InviteRow>, index: nat, field: RowField, value: string, removed: int)
    requires SelectableRoles(rows)
    requires field == RoleField ==> IsSelectableRole(value)
    ensures SelectableRoles(AddRow(rows))
    ensures SelectableRoles(RemoveRow(rows, removed))
    ensures index < |rows| ==> SelectableRoles(UpdateRow(rows, index, field, value))
  {
    var r := RemoveRow(rows, removed);
    forall k | 0 <= k < |r| ensures IsSelectableRole(r[k].role) {
      if 0 <= removed <= k { assert r[k] == rows[k + 1]; } else { assert r[k] == rows[k]; }
    }
  }

  // ----- the create request -----

  /** `userInputs.map(u => ({username: u.username.trim(), role: u.role}))`. */
  function TrimRows(rows: seq<InviteRow>): (r: seq<InviteRow>)
    ensures |r| == |rows|
    ensures forall k | 0 <= k < |rows| :: r[k] == InviteRow(Trim(rows[k].username), rows[k].role)
  {
    seq(|rows|, k requires 0 <= k < |rows| => InviteRow(Trim(rows[k].username), rows[k].role))
  }

  /** `.filter(u => u.username !== '')`. */
  function NamedRows(rows: seq<InviteRow>): (r: seq<InviteRow>)
    ensures |r| <= |rows|
  {
    if rows == [] then []
    else NamedRows(rows[..|rows| - 1]) + (if rows[|rows| - 1].username != "" then [rows[|rows| - 1]] else [])
  }

  /** The positions, in order, of the rows with a non-empty name. */
  function KeptRows(rows: seq<InviteRow>): (idx: seq<nat>)
    ensures forall k | 0 <= k < |idx| :: idx[k] < |rows|
  {
    if rows == [] then []
    else KeptRows(rows[..|rows| - 1]) + (if rows[|rows| - 1].username != "" then [|rows| - 1] else [])
  }

  /** The kept positions are increasing, hold a name, and miss none. */
  lemma {:induction false} KeptRowsExact(rows: seq<InviteRow>)
    ensures forall k | 0 <= k < |KeptRows(rows)| :: rows[KeptRows(rows)[k]].username != ""
    ensures forall k, l | 0 <= k < l < |KeptRows(rows)| :: KeptRows(rows)[k] < KeptRows(rows)[l]
    ensures forall j | 0 <= j < |rows| && rows[j].username != "" :: j in KeptRows(rows)
  {
    if rows != [] {
      var init := rows[..|rows| - 1];
      KeptRowsExact(init);
      assert forall j | 0 <= j < |init| :: init[j] == rows[j];
    }
  }

  /** The filter keeps exactly the rows at the kept positions, in order. */
  lemma {:induction false} NamedRowsAreKept(rows: seq<InviteRow>)
    ensures |NamedRows(rows)| == |KeptRows(rows)|
    ensures forall k | 0 <= k < |KeptRows(rows)| :: NamedRows(rows)[k] == rows[KeptRows(rows)[k]]
  {
    if rows != [] {
      var init := rows[..|rows| - 1];
      NamedRowsAreKept(init);
      assert forall j | 0 <= j < |init| :: init[j] == rows[j];
    }
  }

  /** `handleCreateDocument`'s request: the title, then the user names and
      their roles as two parallel arrays. */
  function BuildCreateRequest(title: string, rows: seq<InviteRow>): (r: CreateDocumentRequest)
    ensures r.name == title
    ensures |r.usernames| == |r.roles|
  {
    var users := NamedRows(TrimRows(rows));
    NamedRowsAreKept(TrimRows(rows));
    CreateDocumentRequest(
      title,
      seq(|users|, k requires 0 <= k < |users| => users[k].username),
      seq(|users|, k requires 0 <= k < |users| => users[k].role))
  }

  /** Position k of both arrays comes from the same row: the k-th row, in
      order, whose trimmed name is not empty. No such row is missed. */
  lemma CreateRequestFromRows(title: string, rows: seq<InviteRow>)
    ensures var r := BuildCreateRequest(title, rows);
      var kept := KeptRows(TrimRows(rows));
      && |r.usernames| == |r.roles| == |kept|
      && (forall k | 0 <= k < |kept| ::
            && r.usernames[k] == Trim(rows[kept[k]].username) && r.usernames[k] != ""
            && r.roles[k] == rows[kept[k]].role)
      && (forall k, l | 0 <= k < l < |kept| :: kept[k] < kept[l])
      && (forall j | 0 <= j < |rows| && Trim(rows[j].username) != "" :: j in kept)
  {
    var trimmed := TrimRows(rows);
    NamedRowsAreKept(trimmed);
    KeptRowsExact(trimmed);
  }

  /** Every user name sent is non-empty and trimmed. */
  lemma RequestNamesAreTrimmed(title: string, rows: seq<InviteRow>)
    ensures forall u | u in BuildCreateRequest(title, rows).usernames ::
      u != "" && !IsWhiteSpace(u[0]) && !IsWhiteSpace(u[|u| - 1])
  {
    CreateRequestFromRows(title, rows);
  }

  /** A form whose rows carry selectable roles only sends role names. */
  lemma RequestRolesAreRoleNames(title: string, rows: seq<InviteRow>)
    requires SelectableRoles(rows)
    ensures forall s | s in BuildCreateRequest(title, rows).roles :: IsRoleName(s)
  {
    CreateRequestFromRows(title, rows);
  }

  /** A form of one row with a non-blank name sends that trimmed name with
      the row's role. */
  lemma SingleRowRequest(title: string, name: string, role: string)
    requires Trim(name) != ""
    ensures BuildCreateRequest(title, [InviteRow(name, role)])
      == CreateDocumentRequest(title, [Trim(name)], [role])
  {
    var rows := [InviteRow(name, role)];
    var row := InviteRow(Trim(name), role);
    assert TrimRows(rows) == [row];
    NamedSingleRow(row);
  }

  lemma NamedSingleRow(row: InviteRow)
    requires row.username != ""
    ensures NamedRows([row]) == [row]
  {
    assert [row][..0] == [];
  }

  /** As written, a user typed into the first row without touching its
      `<select>` is invited with the role name `"User"`, which no role has. */
  lemma InitialRowSendsUserRole(title: string, name: string)
    requires Trim(name) != ""
    ensures var rows := UpdateRow(InitialRowsAsWritten(), 0, UsernameField, name);
      var request := BuildCreateRequest(title, rows);
      request.roles == ["User"] && !IsRoleName(request.roles[0])
  {
    var rows := UpdateRow(InitialRowsAsWritten(), 0, UsernameField, name);
    assert rows == [InviteRow(name, "User")];
    SingleRowRequest(title, name, "User");
    assert |"User"| != |"Creator"| && |"User"| != |"Editor"| && |"User"| != |"Viewer"|;
  }

  /** With the initial row as intended, the same user is invited as a viewer. */
  lemma InitialRowSendsViewerRole(title: string, name: string)
    requires Trim(name) != ""
    ensures var rows := UpdateRow(InitialRows(), 0, UsernameField, name);
      var request := BuildCreateRequest(title, rows);
      request.roles == ["Viewer"] && IsRoleName(request.roles[0])
  {
    var rows := UpdateRow(InitialRows(), 0, UsernameField, name);
    assert rows == [InviteRow(name, "Viewer")];
    SingleRowRequest(title, name, "Viewer");
  }

  // ----- the error report of a failed create -----

  const NotFoundPrefix: string := "Пользователи не найдены:"

  /** `err.message.match(/Пользователи не найдены:\s*(.*)/)[1]`, when the
      message includes the prefix: what follows its first occurrence, past any
      white space, up to the end of the line. */
  function NotFoundUsers(message: string): (r: Option<string>)
    ensures r.None? <==> !Includes(message, NotFoundPrefix)
    ensures r.Some? ==> forall k | 0 <= k < |r.value| :: !IsLineTerminator(r.value[k])
    ensures r.Some? && r.value != [] ==> !IsWhiteSpace(r.value[0])
  {
    match IndexOf(message, NotFoundPrefix)
    case None => None
    case Some(i) => Some(TakeLine(TrimStart(message[i + |NotFoundPrefix|..])))
  }

  /** A server message made of the prefix, white space and a one-line list of
      names reports exactly that list. */
  lemma NotFoundUsersReadsList(gap: string, names: string)
    requires forall k | 0 <= k < |gap| :: IsWhiteSpace(gap[k])
    requires names == [] || !IsWhiteSpace(names[0])
    requires forall k | 0 <= k < |names| :: !IsLineTerminator(names[k])
    ensures NotFoundUsers(NotFoundPrefix + gap + names) == Some(names)
  {
    var m := NotFoundPrefix + gap + names;
    assert OccursAt(m, NotFoundPrefix, 0) by {
      assert m[0..|NotFoundPrefix|] == NotFoundPrefix;
    }
    assert m[|NotFoundPrefix|..] == gap + names;
    TrimStartSkipsGap(gap, names);
    TakeLineWhole(names);
  }

  /** `r` is read at offset `j` of the message, where the text after the
      prefix begins at `start`: only white space lies between them, `r` starts
      at the first other character, and it runs up to a line terminator or the
      end of the message. */
  predicate ReportAt(message: string, r: string, start: nat, j: nat) {
    && start <= j <= |message| - |r|
    && (forall k | start <= k < j :: IsWhiteSpace(message[k]))
    && (j == |message| || !IsWhiteSpace(message[j]))
    && r == message[j..j + |r|]
    && (j + |r| == |message| || IsLineTerminator(message[j + |r|]))
  }

  /** For any message that includes the prefix, the report is read at its
      first occurrence: past the prefix, then past all the white space that
      follows, the longest run of text up to a line terminator or the end. */
  lemma NotFoundUsersAfterFirstPrefix(message: string)
    requires Includes(message, NotFoundPrefix)
    ensures IndexOf(message, NotFoundPrefix).Some?
    ensures var start := IndexOf(message, NotFoundPrefix).value + |NotFoundPrefix|;
      exists j: nat :: ReportAt(message, NotFoundUsers(message).value, start, j)
  {
    var i := IndexOf(message, NotFoundPrefix).value;
    var start := i + |NotFoundPrefix|;
    var t := TrimStart(message[start..]);
    var r := TakeLine(t);
    assert r == NotFoundUsers(message).value;
    ReportInTail(message, start, t, r);
  }

  lemma ReportInTail(message: string, start: nat, t: string, r: string)
    requires start <= |message|
    requires t == TrimStart(message[start..]) && r == TakeLine(t)
    ensures ReportAt(message, r, start, |message| - |t|)
  {
    GapIsWhiteSpace(message, start, t);
    SuffixOfTail(message, start, t);
    LineInSuffix(message, t, r);
  }

  /** A suffix of a tail of `s` is a suffix of `s`. */
  lemma SuffixOfTail<T>(s: seq<T>, start: nat, t: seq<T>)
    requires start <= |s| && |t| <= |s| - start && t == s[start..][|s| - start - |t|..]
    ensures t == s[|s| - |t|..]
  {
    forall k | 0 <= k < |t|
      ensures t[k] == s[|s| - |t| + k]
    {
      assert t[k] == s[start..][|s| - start - |t| + k];
    }
  }

  /** What `TrimStart` skipped in the tail is white space of the message. */
  lemma GapIsWhiteSpace(message: string, start: nat, t: string)
    requires start <= |message| && t == TrimStart(message[start..])
    ensures forall k | start <= k < |message| - |t| :: IsWhiteSpace(message[k])
  {
    var tail := message[start..];
    forall k | start <= k < |message| - |t|
      ensures IsWhiteSpace(message[k])
    {
      assert message[k] == tail[k - start];
    }
  }

  /** A prefix `r` of a suffix `t` of `s` is the slice of `s` where `t` starts. */
  lemma PrefixOfSuffix<T>(s: seq<T>, t: seq<T>, r: seq<T>)
    requires |t| <= |s| && t == s[|s| - |t|..]
    requires |r| <= |t| && r == t[..|r|]
    ensures r == s[|s| - |t|..|s| - |t| + |r|]
  {
    var j := |s| - |t|;
    forall k | 0 <= k < |r|
      ensures r[k] == s[j + k]
    {
      assert r[k] == t[k];
    }
  }

  /** The line read from a suffix `t` of `s` sits in `s` right where `t` starts. */
  lemma LineInSuffix(s: string, t: string, r: string)
    requires |t| <= |s| && t == s[|s| - |t|..]
    requires (t == [] || !IsWhiteSpace(t[0])) && r == TakeLine(t)
    ensures var j := |s| - |t|;
      && j <= |s| - |r|
      && (j == |s| || !IsWhiteSpace(s[j]))
      && r == s[j..j + |r|]
      && (j + |r| == |s| || IsLineTerminator(s[j + |r|]))
  {
    var j := |s| - |t|;
    PrefixOfSuffix(s, t, r);
    if j < |s| {
      assert s[j] == t[0];
    }
    if j + |r| < |s| {
      assert s[j + |r|] == t[|r|];
    }
  }

  lemma {:induction false} TrimStartSkipsGap(gap: string, rest: string)
    requires forall k | 0 <= k < |gap| :: IsWhiteSpace(gap[k])
    requires rest == [] || !IsWhiteSpace(rest[0])
    ensures TrimStart(gap + rest) == rest
  {
    if gap == [] {
      assert gap + rest == rest;
    } else {
      assert (gap + rest)[0] == gap[0];
      assert (gap + rest)[1..] == gap[1..] + rest;
      TrimStartSkipsGap(gap[1..], rest);
    }
  }

  lemma {:induction false} TakeLineWhole(s: string)
    requires forall k | 0 <= k < |s| :: !IsLineTerminator(s[k])
    ensures TakeLine(s) == s
  {
    if s != [] {
      TakeLineWhole(s[1..]);
    }
  }

  /** The alert shown when the create call fails. */
  function CreateFailureAlert(message: string): (a: string)
    ensures NotFoundUsers(message).Some? ==>
      a == "Документ не создан, но не удалось добавить следующих пользователей: " + NotFoundUsers(message).value
    ensures NotFoundUsers(message).None? ==> a == "Ошибка при создании документа. Попробуйте позже."
  {
    match NotFoundUsers(message)
    case Some(notFound) => "Документ не создан, но не удалось добавить следующих пользователей: " + notFound
    case None => "Ошибка при создании документа. Попробуйте позже."
  }

  // ----- the component's state -----

  class DocumentListView {
    var documents: seq<UserDocumentDto>
    var loading: bool
    var showForm: bool
    var newDocTitle: string
    var userInputs: seq<InviteRow>
    /** Every `alert` shown, in order. */
    var alerts: seq<string>

    /** The form as the component mounts it, with the initial row as written. */
    constructor ()
      ensures documents == [] && loading && !showForm && newDocTitle == ""
      ensures userInputs == InitialRowsAsWritten() && alerts == []
    {
      documents := [];
      loading := true;
      showForm := false;
      newDocTitle := "";
      userInputs := InitialRowsAsWritten();
      alerts := [];
    }

    /** `fetchDocuments` settled: a failure is only logged; loading ends either way. */
    method DocumentsFetched(result: Result<seq<UserDocumentDto>, string>)
      modifies this`documents, this`loading
      ensures !loading
      ensures documents == if result.Success? then result.value else old(documents)
    {
      if result.Success? {
        documents := result.value;
      }
      loading := false;
    }

    method OnDocumentCreated(doc: Document)
      modifies this`documents
      ensures documents == DocumentCreated(old(documents), doc)
    {
      documents := DocumentCreated(documents, doc);
    }

    method OnDocumentDeleted(id: int)
      modifies this`documents
      ensures documents == DocumentDeleted(old(documents), id)
    {
      documents := DocumentDeleted(documents, id);
    }

    method ToggleForm()
      modifies this`showForm
      ensures showForm == !old(showForm)
    {
      showForm := !showForm;
    }

    method SetTitle(title: string)
      modifies this`newDocTitle
      ensures newDocTitle == title
    {
      newDocTitle := title;
    }

    /** `handleUserChange`: a copy of the rows with one field of one row
        overwritten. */
    method HandleUserChange(index: nat, field: RowField, value: string)
      requires index < |userInputs|
      modifies this`userInputs
      ensures userInputs == UpdateRow(old(userInputs), index, field, value)
    {
      var updated := userInputs;
      if field == RoleField {
        updated := updated[index := updated[index].(role := value)];
      } else {
        updated := updated[index := updated[index].(username := value)];
      }
      userInputs := updated;
    }

    method AddUserInput()
      modifies this`userInputs
      ensures userInputs == AddRow(old(userInputs))
    {
      userInputs := AddRow(userInputs);
    }

    method RemoveUserInput(index: int)
      modifies this`userInputs
      ensures userInputs == RemoveRow(old(userInputs), index)
    {
      userInputs := RemoveRow(userInputs, index);
    }

    /** `handleCreateDocument`: sends the request; on success closes and
        resets the form, on failure shows an alert and keeps the form. */
    method HandleCreateDocument(hub: HubConnection, transportFailure: Option<string>)
      returns (r: Result<Reply, SendError>)
      modifies this`showForm, this`newDocTitle, this`userInputs, this`alerts, hub`sent
      ensures r.Success? <==> old(hub.state) == Connected && transportFailure.None?
      ensures r.Success? ==>
        && hub.sent == old(hub.sent) + [Invocation("CreateDocument",
             [CreateDocumentArg(BuildCreateRequest(old(newDocTitle), old(userInputs)))])]
        && !showForm && newDocTitle == "" && userInputs == [InviteRow("", "Viewer")]
        && alerts == old(alerts)
      ensures r.Failure? ==>
        && hub.sent == old(hub.sent)
        && showForm == old(showForm) && newDocTitle == old(newDocTitle) && userInputs == old(userInputs)
        && alerts == old(alerts) + [CreateFailureAlert(ErrorMessage(r.error))]
    {
      var request := BuildCreateRequest(newDocTitle, userInputs);
      r := hub.SendMessage("CreateDocument", [CreateDocumentArg(request)], transportFailure);
      match r
      case Success(_) =>
        showForm := false;
        newDocTitle := "";
        userInputs := [InviteRow("", "Viewer")];
      case Failure(err) =>
        alerts := alerts + [CreateFailureAlert(ErrorMessage(err))];
    }

    /** `handleDeleteDocument`: nothing happens unless the user confirms; the
        entry leaves the list only once the send succeeded. */
    method HandleDeleteDocument(hub: HubConnection, id: int, confirmed: bool, transportFailure: Option<string>)
      modifies this`documents, this`alerts, hub`sent
      ensures !confirmed ==> documents == old(documents) && alerts == old(alerts) && hub.sent == old(hub.sent)
      ensures confirmed && old(hub.state) == Connected && transportFailure.None? ==>
        && hub.sent == old(hub.sent) + [Invocation("DeleteDocument", [DocumentIdArg(id)])]
        && documents == DocumentDeleted(old(documents), id) && alerts == old(alerts)
      ensures confirmed && !(old(hub.state) == Connected && transportFailure.None?) ==>
        && hub.sent == old(hub.sent) && documents == old(documents)
        && alerts == old(alerts) + ["Failed to delete document."]
    {
      if !confirmed {
        return;
      }
      var r := hub.SendMessage("DeleteDocument", [DocumentIdArg(id)], transportFailure);
      if r.Success? {
        documents := DocumentDeleted(documents, id);
      } else {
        alerts := alerts + ["Failed to delete document."];
      }
    }
  }

  /** The second finding on the class itself: on a freshly mounted form, a
      user typed into the first row and created at once is invited with the
      role name `"User"`. */
  method FreshFormSendsUserRole(hub: HubConnection, title: string, name: string)
    returns (view: DocumentListView)
    requires hub.state == Connected && Trim(name) != ""
    modifies hub`sent
    ensures hub.sent == old(hub.sent) + [Invocation("CreateDocument",
      [CreateDocumentArg(CreateDocumentRequest(title, [Trim(name)], ["User"]))])]
  {
    view := new DocumentListView();
    view.SetTitle(title);
    view.HandleUserChange(0, UsernameField, name);
    assert view.userInputs == [InviteRow(name, "User")];
    SingleRowRequest(title, name, "User");
    var r := view.HandleCreateDocument(hub, None);
  }
}
