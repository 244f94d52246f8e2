/** The shared hub connection of src/api/signalr.ts: the connection state the
    SignalR library keeps, the module-level `isConnecting` guard, and the three
    exported operations `startConnection`, `sendMessage` and `stopConnection`.
    The transport itself is not modelled: what `start()` and `send()` do on the
    wire enters only as the outcome the caller passes in. */
module SignalR {
  import opened Wrappers
  import opened Models

  datatype ConnectionState = Disconnected | Connecting | Connected | Reconnecting

  /** One argument of a hub invocation. */
  datatype Arg =
    | EditBlockArg(edit: EditBlockRequest)
    | SendBlockArg(block: SendBlockRequest)
    | CreateDocumentArg(create: CreateDocumentRequest)
    | DocumentIdArg(documentId: int)
    | BlockImageArg(image: BlockImageRequest)
    | FileUploadArg(file: FileUpload)

  /** A call handed to the transport: the hub method and its arguments, in order. */
  datatype Invocation = Invocation(target: string, args: seq<Arg>)

  /** What an awaited hub call resolves to: `undefined`, or the image
      descriptor the server answers `SendBlockImage` with. */
  datatype Reply = Undefined | ImageDescriptor(id: int, url: string)

  datatype SendError = NotConnected | TransportError(message: string)

  /** The `message` of the error a failed call rejects with. */
  function ErrorMessage(e: SendError): (m: string)
    ensures e.NotConnected? ==> m == "SignalR not connected"
    ensures e.TransportError? ==> m == e.message
  {
    match e
    case NotConnected => "SignalR not connected"
    case TransportError(message) => message
  }

  /** The guard at the top of `startConnection`: a handshake is begun only when
      no attempt is pending and the connection is idle. */
  predicate MayStart(isConnecting: bool, state: ConnectionState) {
    !isConnecting && state == Disconnected
  }

  class HubConnection {
    /** `hubConnection.state`, as the library reports it. */
    var state: ConnectionState
    /** The module-level `isConnecting` flag. */
    var isConnecting: bool
    /** Every invocation the transport accepted, in order. */
    var sent: seq<Invocation>
    /** How many times `start()` was called on the transport. */
    var handshakes: nat
    /** How many times `stop()` was called on the transport. */
    var stops: nat

    /** The flag is raised exactly while a `start()` of ours is pending. */
    ghost predicate Valid()
      reads this
    {
      isConnecting <==> state == Connecting
    }

    constructor ()
      ensures Valid()
      ensures state == Disconnected && !isConnecting
      ensures sent == [] && handshakes == 0 && stops == 0
    {
      state := Disconnected;
      isConnecting := false;
      sent := [];
      handshakes := 0;
      stops := 0;
    }

    /** `sendMessage(target, args)`: refuses unless connected, otherwise hands
        the target and the arguments, unchanged and in order, to
        `hubConnection.send`. `transportFailure` is that call's rejection, if
        any. `send` does not wait for the server, and `sendMessage` returns
        nothing, so a successful call resolves to `undefined`. */
    method SendMessage(target: string, args: seq<Arg>, transportFailure: Option<string>)
      returns (r: Result<Reply, SendError>)
      modifies this`sent
      ensures old(state) != Connected ==> r == Failure(NotConnected) && sent == old(sent)
      ensures old(state) == Connected && transportFailure.None? ==>
        r == Success(Undefined) && sent == old(sent) + [Invocation(target, args)]
      ensures old(state) == Connected && transportFailure.Some? ==>
        r == Failure(TransportError(transportFailure.value)) && sent == old(sent)
    {
      if state != Connected {
        return Failure(NotConnected);
      }
      match transportFailure
      case None =>
        sent := sent + [Invocation(target, args)];
        r := Success(Undefined);
      case Some(message) =>
        r := Failure(TransportError(message));
    }

    /** The call `SendBlockImage` needs and `sendMessage` does not make: the
        same guard, but the server's `reply` to the invocation is returned to
        the caller (`hubConnection.invoke`). */
    method InvokeMessage(target: string, args: seq<Arg>, transportFailure: Option<string>, reply: Reply)
      returns (r: Result<Reply, SendError>)
      modifies this`sent
      ensures old(state) != Connected ==> r == Failure(NotConnected) && sent == old(sent)
      ensures old(state) == Connected && transportFailure.None? ==>
        r == Success(reply) && sent == old(sent) + [Invocation(target, args)]
      ensures old(state) == Connected && transportFailure.Some? ==>
        r == Failure(TransportError(transportFailure.value)) && sent == old(sent)
    {
      if state != Connected {
        return Failure(NotConnected);
      }
      match transportFailure
      case None =>
        sent := sent + [Invocation(target, args)];
        r := Success(reply);
      case Some(message) =>
        r := Failure(TransportError(message));
    }

    /** The synchronous part of `startConnection`, up to the awaited `start()`:
        returns without effect unless the guard passes; otherwise raises the
        flag and begins one handshake. */
    method StartConnection() returns (began: bool)
      requires Valid()
      modifies this`state, this`isConnecting, this`handshakes
      ensures Valid()
      ensures began == MayStart(old(isConnecting), old(state))
      ensures began ==> state == Connecting && isConnecting && handshakes == old(handshakes) + 1
      ensures !began ==> state == old(state) && isConnecting == old(isConnecting) && handshakes == old(handshakes)
    {
      if isConnecting || state != Disconnected {
        return false;
      }
      isConnecting := true;
      handshakes := handshakes + 1;
      state := Connecting;
      began := true;
    }

    /** The rest of `startConnection`, when the pending `start()` settles:
        success leaves the connection up, a failure is caught and logged (never
        rethrown), and in both cases `finally` lowers the flag. */
    method StartSettled(succeeded: bool)
      requires Valid() && isConnecting
      modifies this`state, this`isConnecting
      ensures Valid() && !isConnecting
      ensures state == (if succeeded then Connected else Disconnected)
    {
      state := if succeeded then Connected else Disconnected;
      isConnecting := false;
    }

    /** `stopConnection`: stops the transport only when connected. */
    method StopConnection()
      requires Valid()
      modifies this`state, this`stops
      ensures Valid()
      ensures old(state) == Connected ==> state == Disconnected && stops == old(stops) + 1
      ensures old(state) != Connected ==> state == old(state) && stops == old(stops)
    {
      if state == Connected {
        stops := stops + 1;
        state := Disconnected;
      }
    }

    /** The transport dropped a live connection. No automatic reconnect is
        configured on the builder, so the library closes the connection. */
    method TransportClosed()
      requires Valid() && state == Connected
      modifies this`state
      ensures Valid() && state == Disconnected
    {
      state := Disconnected;
    }
  }

  /** Two `startConnection` calls that overlap (the second made before the
      first one's `start()` settles) begin at most one handshake. */
  method OverlappingStartsHandshakeOnce(hub: HubConnection) returns (first: bool, second: bool)
    requires hub.Valid()
    modifies hub
    ensures !second
    ensures hub.handshakes <= old(hub.handshakes) + 1
    ensures hub.Valid()
  {
    first := hub.StartConnection();
    second := hub.StartConnection();
  }

  /** A failed handshake lowers the flag, so the next `startConnection` tries again. */
  method FailedStartIsRetryable(hub: HubConnection) returns (retried: bool)
    requires hub.Valid() && hub.state == Disconnected
    modifies hub
    ensures retried && hub.handshakes == old(hub.handshakes) + 2
    ensures hub.Valid() && hub.state == Connecting
  {
    var began := hub.StartConnection();
    hub.StartSettled(false);
    retried := hub.StartConnection();
  }
}
