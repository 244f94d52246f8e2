/** The editing session of src/components/DocumentEditor.tsx: the block list,
    the focused block, the role that gates editing and the shared debouncer in
    front of the hub. */
module DocumentEditor {
  import opened Wrappers
  import opened JsText
  import opened Models
  import opened SignalR
  import opened BlockStore
  import opened EditCoalescer

  /** `canEdit`: creators and editors may edit; viewers and users without a
      role may not. */
  function CanEdit(role: Option<DocumentRole>): (r: bool)
    ensures r <==> role.Some? && role.value != Viewer
  {
    match role
    case Some(Creator) | Some(Editor) => true
    case _ => false
  }

  /** `docs.find(d => d.document.id === documentId)?.role ?? null`. */
  function RoleOf(docs: seq<UserDocumentDto>, documentId: int): (r: Option<DocumentRole>)
    ensures r.None? <==> forall k | 0 <= k < |docs| :: docs[k].document.id != documentId
    ensures r.Some? ==> exists k | 0 <= k < |docs| ::
      && docs[k].document.id == documentId && docs[k].role == r.value
      && forall j | 0 <= j < k :: docs[j].document.id != documentId
  {
    if docs == [] then None
    else if docs[0].document.id == documentId then Some(docs[0].role)
    else
      var r := RoleOf(docs[1..], documentId);
      assert forall k | 1 <= k < |docs| :: docs[k] == docs[1..][k - 1];
      r
  }

  /** The text marker `[image:<id>]` that stands for an uploaded image. */
  function ImageMarker(imageId: int): (m: string)
    ensures |m| >= 8 && m[..7] == "[image:" && m[|m| - 1] == ']'
    ensures ParseInt(m[7..|m| - 1]) == Some(imageId)
    ensures m[7..|m| - 1] == IntToDecimal(imageId)
  {
    var m := "[image:" + IntToDecimal(imageId) + "]";
    assert m[7..|m| - 1] == IntToDecimal(imageId);
    m
  }

  /** Reads an image marker back. */
  function ParseImageMarker(s: string): Option<int> {
    if |s| >= 8 && s[..7] == "[image:" && s[|s| - 1] == ']' then ParseInt(s[7..|s| - 1]) else None
  }

  lemma ImageMarkerRoundTrip(imageId: int)
    ensures ParseImageMarker(ImageMarker(imageId)) == Some(imageId)
  {
    var m := ImageMarker(imageId);
    assert m[..7] == "[image:" && m[|m| - 1] == ']';
  }

  /** The text saved after an upload: the block's current text (or "" when the
      block is not in the list), a line break, then the marker. */
  function TextWithImage(blocks: seq<Block>, blockId: int, imageId: int): (t: string)
    ensures var current := TextOf(blocks, blockId);
      && |t| > |current|
      && t[..|current|] == current
      && t[|current|] == '\n'
      && ParseImageMarker(t[|current| + 1..]) == Some(imageId)
      && t == current + "\n" + ImageMarker(imageId)
  {
    var current := TextOf(blocks, blockId);
    var t := current + "\n" + ImageMarker(imageId);
    assert t[|current| + 1..] == ImageMarker(imageId);
    ImageMarkerRoundTrip(imageId);
    t
  }

  /** What the paste handler saves once the upload call resolves with `reply`:
      reading `reply.id` of `undefined` throws, the handler's `catch` logs it,
      and nothing is saved. */
  function SaveAfterUpload(blocks: seq<Block>, blockId: int, reply: Reply): (r: Option<EditBlockRequest>)
    ensures r.Some? <==> reply.ImageDescriptor?
    ensures r.Some? ==> r.value.id == blockId && r.value.editedText == TextWithImage(blocks, blockId, reply.id)
  {
    match reply
    case Undefined => None
    case ImageDescriptor(id, _) => Some(EditBlockRequest(blockId, TextWithImage(blocks, blockId, id)))
  }

  /** As written, the upload goes through `sendMessage`, which resolves to
      `undefined` on success; so a successful upload never saves the marker. */
  lemma PasteThroughSendMessageNeverSaves(hubResult: Result<Reply, SendError>, blocks: seq<Block>, blockId: int)
    requires hubResult == Success(Undefined)
    ensures SaveAfterUpload(blocks, blockId, hubResult.value) == None
  {
  }

  class EditorSession {
    /** The document id from the route. */
    const documentId: int
    var blocks: seq<Block>
    var role: Option<DocumentRole>
    /** `activeBlockIdRef.current`. */
    var activeId: Option<int>
    /** The arguments of the last `save` call not yet sent. */
    var pending: Option<EditBlockRequest>
    /** Every `save` call and every elapsed quiet period, in order. */
    ghost var saveEvents: seq<DebounceEvent>
    /** Every `EditBlock` send the debouncer issued, in order. */
    ghost var editSends: seq<EditBlockRequest>

    /** The pending arguments and the sends so far are those of the debounce
        trace. */
    ghost predicate Valid()
      reads this
    {
      && pending == Replay(None, saveEvents)
      && editSends == Emitted(None, saveEvents)
    }

    constructor (documentId: int)
      ensures Valid()
      ensures this.documentId == documentId
      ensures blocks == [] && role == None && activeId == None && pending == None
      ensures saveEvents == [] && editSends == []
    {
      this.documentId := documentId;
      blocks := [];
      role := None;
      activeId := None;
      pending := None;
      saveEvents := [];
      editSends := [];
    }

    /** The fetched blocks replace the list, in the order given. */
    method LoadBlocks(fetched: seq<Block>)
      modifies this`blocks
      ensures blocks == fetched
    {
      blocks := fetched;
    }

    /** The role comes from the first of the user's documents with this id. */
    method LoadRole(docs: seq<UserDocumentDto>)
      modifies this`role
      ensures role == RoleOf(docs, documentId)
    {
      role := RoleOf(docs, documentId);
    }

    /** A block editor gained focus. */
    method Focus(blockId: int)
      modifies this`activeId
      ensures activeId == Some(blockId)
    {
      activeId := Some(blockId);
    }

    /** The `ReceiveBlock` event. */
    method OnReceiveBlock(b: Block)
      modifies this`blocks
      ensures blocks == ReceiveBlock(old(blocks), activeId, b)
    {
      blocks := ReceiveBlock(blocks, activeId, b);
    }

    /** The `BlockEdited` event. */
    method OnBlockEdited(b: Block)
      modifies this`blocks
      ensures blocks == BlockEdited(old(blocks), b)
    {
      blocks := BlockEdited(blocks, b);
    }

    /** The debounced `save(id, text)`: replaces whatever was pending and
        restarts the quiet period. */
    method Save(id: int, text: string)
      requires Valid()
      modifies this`pending, this`saveEvents
      ensures Valid()
      ensures pending == Some(EditBlockRequest(id, text))
      ensures saveEvents == old(saveEvents) + [Call(EditBlockRequest(id, text))]
    {
      EmittedSnoc(None, saveEvents, Call(EditBlockRequest(id, text)));
      pending := Some(EditBlockRequest(id, text));
      saveEvents := saveEvents + [Call(EditBlockRequest(id, text))];
    }

    /** `handleBlockChange`: the local list is updated at once, the send is
        left to the debouncer. */
    method HandleBlockChange(id: int, text: string)
      requires Valid()
      modifies this`blocks, this`pending, this`saveEvents
      ensures Valid()
      ensures blocks == LocalEdit(old(blocks), id, text)
      ensures pending == Some(EditBlockRequest(id, text))
      ensures saveEvents == old(saveEvents) + [Call(EditBlockRequest(id, text))]
    {
      blocks := LocalEdit(blocks, id, text);
      Save(id, text);
    }

    /** The debounce timer ran out: the pending arguments, if any, go out as
        one `EditBlock`, and nothing is pending any more. A refusal by the hub
        is not retried. */
    method QuietPeriodElapsed(hub: HubConnection, transportFailure: Option<string>)
      returns (r: Option<Result<Reply, SendError>>)
      requires Valid()
      modifies this`pending, this`saveEvents, this`editSends, hub`sent
      ensures Valid()
      ensures pending == None
      ensures saveEvents == old(saveEvents) + [EditCoalescer.QuietPeriodElapsed]
      ensures editSends == old(editSends) + FiredBy(old(pending), EditCoalescer.QuietPeriodElapsed)
      ensures r.Some? <==> old(pending).Some?
      ensures old(pending).None? ==> hub.sent == old(hub.sent)
      ensures old(pending).Some? && old(hub.state) == Connected && transportFailure.None? ==>
        hub.sent == old(hub.sent) + [Invocation("EditBlock", [EditBlockArg(old(pending).value)])]
        && r == Some(Success(Undefined))
      ensures old(pending).Some? && (old(hub.state) != Connected || transportFailure.Some?) ==>
        hub.sent == old(hub.sent) && r.value.Failure?
    {
      EmittedSnoc(None, saveEvents, EditCoalescer.QuietPeriodElapsed);
      saveEvents := saveEvents + [EditCoalescer.QuietPeriodElapsed];
      editSends := editSends + FiredBy(pending, EditCoalescer.QuietPeriodElapsed);
      match pending
      case None =>
        r := None;
      case Some(request) =>
        pending := None;
        var sendResult := hub.SendMessage("EditBlock", [EditBlockArg(request)], transportFailure);
        r := Some(sendResult);
    }

    /** `handleImagePaste` once the file is read: the upload is invoked with
        the file's bytes and, when the server answers with the image's id, the
        block's text plus the image marker is saved through the debouncer. Any
        failure is caught and logged. The text comes from the list as it was
        when the paste began. */
    method HandleImagePaste(hub: HubConnection, blockId: int, file: FileUpload, uploadedOn: string,
                            transportFailure: Option<string>, reply: Reply)
      returns (saved: Option<EditBlockRequest>)
      requires Valid()
      modifies this`pending, this`saveEvents, hub`sent
      ensures Valid()
      ensures old(hub.state) == Connected && transportFailure.None? ==>
        hub.sent == old(hub.sent) + [Invocation("SendBlockImage",
          [BlockImageArg(BlockImageRequest(blockId, "", uploadedOn, 0)), FileUploadArg(file)])]
      ensures !(old(hub.state) == Connected && transportFailure.None?) ==> hub.sent == old(hub.sent)
      ensures saved == (if old(hub.state) == Connected && transportFailure.None?
                        then SaveAfterUpload(old(blocks), blockId, reply) else None)
      ensures saved.Some? ==> pending == saved && saveEvents == old(saveEvents) + [Call(saved.value)]
      ensures saved.None? ==> pending == old(pending) && saveEvents == old(saveEvents)
    {
      var snapshot := blocks;
      var request := BlockImageRequest(blockId, "", uploadedOn, 0);
      var response := hub.InvokeMessage("SendBlockImage", [BlockImageArg(request), FileUploadArg(file)],
                                        transportFailure, reply);
      saved := None;
      if response.Success? {
        saved := SaveAfterUpload(snapshot, blockId, response.value);
        if saved.Some? {
          Save(saved.value.id, saved.value.editedText);
        }
      }
    }

    /** `handleAddBlock`: asks the server for a new empty block in this
        document; the block itself arrives later as `ReceiveBlock`. */
    method HandleAddBlock(hub: HubConnection, transportFailure: Option<string>)
      returns (r: Result<Reply, SendError>)
      modifies hub`sent
      ensures old(hub.state) == Connected && transportFailure.None? ==>
        r == Success(Undefined) && hub.sent == old(hub.sent) + [Invocation("SendBlock", [SendBlockArg(SendBlockRequest("", documentId))])]
      ensures !(old(hub.state) == Connected && transportFailure.None?) ==> r.Failure? && hub.sent == old(hub.sent)
    {
      r := hub.SendMessage("SendBlock", [SendBlockArg(SendBlockRequest("", documentId))], transportFailure);
    }
  }

  /** Three quick local edits to one block, then the quiet period: exactly one
      `EditBlock` goes out, with the last text. */
  method ThreeQuickEditsSendOnce(hub: HubConnection) returns (s: EditorSession)
    requires hub.state == Connected
    modifies hub
    ensures s.editSends == [EditBlockRequest(7, "abc")]
    ensures hub.sent == old(hub.sent) + [Invocation("EditBlock", [EditBlockArg(EditBlockRequest(7, "abc"))])]
  {
    s := new EditorSession(1);
    s.HandleBlockChange(7, "a");
    s.HandleBlockChange(7, "ab");
    s.HandleBlockChange(7, "abc");
    var r := s.QuietPeriodElapsed(hub, None);
  }

  /** An empty document: a local edit to an unknown block changes nothing; a
      received block followed by a remote edit of it leaves that one block,
      with the edited content. */
  method ReceiveThenRemoteEdit(first: Block, edited: Block) returns (s: EditorSession)
    requires first.id == edited.id
    ensures s.blocks == [edited]
  {
    s := new EditorSession(1);
    s.LoadBlocks([]);
    s.HandleBlockChange(first.id, "ignored");
    assert s.blocks == [];
    s.OnReceiveBlock(first);
    s.OnBlockEdited(edited);
  }
}
