/** The vocabulary of the client protocol: frames exchanged with the relay, the
    sealed payloads they carry, and the errors an operation can end with. */
module Protocol {
  import opened Wrappers

  // ---- Payloads ---------------------------------------------------------

  datatype DenialReason = UserDenied | PolicyDenied | InvalidRequest | OtherDenial

  datatype AbortReason = Cancelled | TimedOut | InvalidResponse | ClientError | OtherAbort

  /** What a completion tells the device. An abort's message is the text of its cause. */
  datatype Outcome =
    | ApprovedOutcome
    | DeniedOutcome(reason: DenialReason, message: string)
    | AbortedOutcome(abortReason: AbortReason, cause: RequestError)
    | ActivatedOutcome
    | RemovedOutcome

  /** What the device's authenticated response says once it is decoded: an error, a message
      of one of the known forms, or nothing the client knows. */
  datatype Reply =
    | Undecodable
    | DeviceError(code: string, text: string)
    | Approved(data: string)
    | Denied(reason: DenialReason, message: string)
    | AbortedReply
    | PairingAccepted
    | PairingRefused
    | EmptyReply

  datatype Plaintext = Application(contents: string) | Completed(outcome: Outcome)

  /** An HPKE sender context: the request and the pre-shared key it was set up for. */
  datatype Context = Context(requestId: string, psk: Psk)

  datatype Ciphertext = Ciphertext(context: Context, sequence: nat, plaintext: Plaintext)

  /** A pre-shared key as its lineage: a fresh pairing secret and the rotations since. */
  datatype Psk = Initial(clientId: string) | Derived(parent: Psk, rotationKey: string)

  datatype Payload =
    | SealedRequest(ciphertext: Ciphertext, rotationKey: Option<string>)
    | SealedCompletion(ciphertext: Ciphertext)

  /** A protected response. It opens only in the context it was sealed for. */
  datatype Response = Response(context: Context, reply: Reply)

  /** The payload of a response frame, by how it decodes. A value can parse both
      as a protected response and as an unauthenticated error. */
  datatype Value = Value(response: Option<Response>, unauthenticated: Option<(string, string)>)

  // ---- Frames -----------------------------------------------------------

  datatype MessageKind = RequestMessage | ResponseMessage | CompletionMessage

  datatype ExchangeState = ExchangeOpen | Closing | Settled | Expired

  datatype MessageState = Absent | Accepted | Delivered | Discarded

  datatype Ids = Ids(clientId: string, requestId: string)

  datatype OutgoingFrame =
    | Send(ids: Ids, kind: MessageKind, payload: Payload)
    | Acknowledge(ids: Ids, kind: MessageKind)
    | Resume(ids: Ids)

  datatype IncomingFrame =
    | Ack(ids: Ids, kind: MessageKind)
    | Receipt(ids: Ids, kind: MessageKind)
    | Message(ids: Ids, kind: MessageKind, payload: Value)
    | State(ids: Ids, exchange: ExchangeState, request: MessageState,
            response: MessageState, completion: MessageState)
    | Inactive(ids: Ids, inactiveKind: Option<MessageKind>)
    | Error(clientId: Option<string>, requestId: Option<string>, code: string, text: string,
            retryable: bool, retryAfter: Option<nat>)

  /** What a socket read can yield. */
  datatype Arrival =
    | Text(frame: IncomingFrame)
    | Malformed
    | Binary
    | Control
    | CloseFrame(code: nat)
    | Gone

  /** What a connection attempt can come to. */
  datatype ConnectOutcome =
    | Connected
    | NotUpgraded(status: nat)
    | ProxyRejects(status: nat)
    | Unreachable

  function FrameClient(frame: IncomingFrame): Option<string> {
    if frame.Error? then frame.clientId else Some(frame.ids.clientId)
  }

  function FrameRequest(frame: IncomingFrame): Option<string> {
    if frame.Error? then frame.requestId else Some(frame.ids.requestId)
  }

  /** A frame belongs to an exchange unless it names another client or request. */
  predicate AddressedTo(frame: IncomingFrame, ids: Ids) {
    && FrameClient(frame) in {None, Some(ids.clientId)}
    && FrameRequest(frame) in {None, Some(ids.requestId)}
  }

  // ---- Errors -----------------------------------------------------------

  datatype RelayError =
    | InvalidJson
    | UnexpectedStatus(status: nat)
    | ProtocolViolation
    | MissingResponse
    | UnauthenticatedError(code: string, text: string)
    | RelayRejected(code: string, text: string)
    | ExchangeInactive(inactiveKind: Option<MessageKind>)
    | ClientSuspended(status: nat)
    | RetriesExhausted(failures: nat)
    | CompletionTimedOut
    | FrameTooLarge(size: nat)
    | ProxyRejected(status: nat)

  datatype CryptoError = MessageOrder | DecryptionFailed

  datatype ConfigurationError =
    | NoPairing
    | PairingPending
    | PairingExists
    | PairingNotPending
    | PairingChanged
    | Invalid

  datatype RequestError =
    | Interrupted
    | RequestDenied(reason: DenialReason, message: string)
    | DeviceRejected(code: string, text: string)
    | PairingRejected
    | Relay(relayError: RelayError)
    | Crypto(cryptoError: CryptoError)
    | Configuration(configurationError: ConfigurationError)
    | Other(description: string)

  /** How an awaited operation ends: with a value, with an error, or not at all
      because its future was dropped at an await. */
  datatype Await<+T> = Done(value: T) | Failed(error: RelayError) | Dropped {
    predicate IsFailure() { !Done? }

    function PropagateFailure<U>(): Await<U>
      requires !Done?
    {
      if Failed? then Failed(error) else Dropped
    }

    function Extract(): T
      requires Done?
    {
      value
    }
  }
}
