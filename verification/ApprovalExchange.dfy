/** One approval exchange: rotate if due, seal and send the request, judge the response,
    and tell the device the outcome in at most one completion. */
module ApprovalExchange {
  import opened Wrappers
  import opened Protocol
  import opened Retry
  import opened Schedule
  import opened RelayHistory
  import opened RelayTheorems
  import opened Crypto
  import RelayExchange
  import PairingFile

  /** The reason the device is given when the relay exchange failed. */
  function AbortReasonFor(error: RelayError): AbortReason {
    match error
    case RetriesExhausted(_) => TimedOut
    case UnexpectedStatus(status) => if 400 <= status < 500 then ClientError else InvalidResponse
    case _ => InvalidResponse
  }

  /** What the client makes of an authenticated reply. */
  function Judge(reply: Reply, validate: string -> Result<string, string>): Result<string, RequestError> {
    match reply
    case Approved(data) =>
      (match validate(data) case Ok(value) => Ok(value) case Err(reason) => Err(Other(reason)))
    case Denied(reason, message) => Err(RequestDenied(reason, message))
    case AbortedReply => Err(Other("received an ABORTED result in a response"))
    case DeviceError(code, text) => Err(DeviceRejected(code, text))
    case _ => Err(Other("response doesn't decode"))
  }

  predicate IsDeviceError(judgement: Result<string, RequestError>) {
    judgement.Err? && judgement.error.DeviceRejected?
  }

  /** The outcome the device is told for a judgement. */
  function OutcomeOf(judgement: Result<string, RequestError>): Outcome {
    match judgement
    case Ok(_) => ApprovedOutcome
    case Err(RequestDenied(reason, message)) => DeniedOutcome(reason, message)
    case Err(DeviceRejected(code, text)) => AbortedOutcome(ClientError, DeviceRejected(code, text))
    case Err(error) => AbortedOutcome(InvalidResponse, error)
  }

  /** The reply, when the first response heard in a history opens in a context. */
  function Authenticated(context: Context, h: History): Option<Reply> {
    match ViewOf(h).response
    case Some(Value(Some(response), _)) => if response.context == context then Some(response.reply) else None
    case _ => None
  }

  /** A reply is authenticated only in the very context that its response was sealed in. */
  lemma AuthenticatedMeans(context: Context, h: History, reply: Reply)
    ensures Authenticated(context, h) == Some(reply) <==>
      ViewOf(h).response.Some? && ViewOf(h).response.value.response == Some(Response(context, reply))
  {
  }

  /** What the first response heard says, if it opens. */
  function Said(context: Context, h: History): Result<Reply, CryptoError> {
    match Authenticated(context, h)
    case None => Err(DecryptionFailed)
    case Some(reply) => Ok(reply)
  }

  /** The rotation that an authenticated response confirms. */
  function Confirms(said: Result<Reply, CryptoError>, rotationKey: Option<string>): Option<string> {
    if said.Ok? then rotationKey else None
  }

  /** The file after a response: a confirmed rotation is cleared from what is found then. */
  function FileAfter(confirmed: Option<string>, found: PairingFile.File): PairingFile.File {
    if confirmed.Some? then PairingFile.Replace(found, PairingFile.Cleared(found, confirmed.value)) else found
  }

  /** The judgement of a response. One that doesn't open is no reply, and nothing is
      decided if a confirmed rotation can't be cleared. */
  function Judgement(said: Result<Reply, CryptoError>, rotationKey: Option<string>, found: PairingFile.File,
                     validate: string -> Result<string, string>): Result<string, RequestError> {
    match said
    case Err(error) => Err(RequestError.Crypto(error))
    case Ok(reply) =>
      if rotationKey.Some? && PairingFile.Cleared(found, rotationKey.value).Err?
      then Err(Configuration(PairingFile.Cleared(found, rotationKey.value).error))
      else Judge(reply, validate)
  }

  /** The completion of an exchange carries one outcome, sealed after the request. */
  predicate Tells(completion: Option<RelayExchange.OutgoingMessage>, ids: Ids, context: Context, outcome: Outcome) {
    completion.Some? ==>
      completion.value.text ==
        Send(ids, CompletionMessage, SealedCompletion(Ciphertext(context, 1, Completed(outcome))))
  }

  /** The request of an exchange was the first message its session sealed. */
  predicate Asks(request: Option<RelayExchange.OutgoingMessage>, ids: Ids, context: Context, contents: string,
                 rotationKey: Option<string>) {
    request.Some? ==>
      request.value.text == OutgoingFrame.Send(ids, RequestMessage,
        SealedRequest(Ciphertext(context, 0, Application(contents)), rotationKey))
  }

  // ---- How an exchange ends ---------------------------------------------

  /** How the request ended: dismissed by cancellation, broken by the relay exchange, or
      answered with a response that was judged. */
  datatype Ending = Dismissed | Broken(error: RelayError) | Judged(judgement: Result<string, RequestError>)

  /** The relay exchange failed with this error at some moment of the history: the request was
      too large to be made, or it was made under the normal policy and failed. */
  ghost predicate FailedFor(relay: RelayExchange.RelayExchange, size: nat, h: History, error: RelayError)
    reads relay
  {
    if relay.request == None then size > RelayExchange.MAXIMUM_FRAME_SIZE && error == FrameTooLarge(size)
    else exists p :: Extends(p, h) && Breaks(relay, p, error)
  }

  /** The request failed, and from then on cancellation changes the result: exactly if it is seen,
      before or during the abort. */
  ghost predicate Abandoned(relay: RelayExchange.RelayExchange, size: nat, h: History, error: RelayError,
                            cancelled: bool)
    reads relay
  {
    if relay.request == None then
      && size > RelayExchange.MAXIMUM_FRAME_SIZE && error == FrameTooLarge(size)
      && h.After? && h.event == Polled(cancelled)
    else
      exists p :: Extends(p, h) && Breaks(relay, p, error) && (cancelled <==> Cancellations(h) > Cancellations(p))
  }

  lemma AbandonedFailed(relay: RelayExchange.RelayExchange, size: nat, h: History, error: RelayError, cancelled: bool)
    requires Abandoned(relay, size, h, error, cancelled)
    ensures FailedFor(relay, size, h, error)
  {
  }

  ghost predicate Breaks(relay: RelayExchange.RelayExchange, h: History, error: RelayError) {
    ViewOf(h).policy == NORMAL_RETRY_POLICY && RelayExchange.RequestFails(relay.kind, relay.ids, h, error)
  }

  /** A completion that there is was really handed off, at least briefly. */
  ghost predicate Informed(relay: RelayExchange.RelayExchange, h: History)
    reads relay
  {
    relay.completion.Some? ==> RelayExchange.Tried(relay.kind, relay.ids, BRIEF_RETRY_POLICY, h)
  }

  /** Cancellation only shortens the handoff: a brief one was begun after it. */
  ghost predicate InformedAnyway(relay: RelayExchange.RelayExchange, h: History)
    reads relay
  {
    Informed(relay, h) && (relay.completion.Some? ==> CutOff(LastCall(h)))
  }

  /** How an exchange relates its result to what the device said and was told. */
  ghost predicate Concluded(relay: RelayExchange.RelayExchange, context: Context, h: History, ending: Ending,
                            setting: Setting, r: Result<string, RequestError>)
    reads relay
  {
    var small := setting.completionSize <= RelayExchange.MAXIMUM_FRAME_SIZE;
    match ending
    case Dismissed =>
      && r == Err(Interrupted)
      && (relay.completion.Some? <==> ViewOf(h).requestSent && small)
      && Tells(relay.completion, relay.ids, context, AbortedOutcome(Cancelled, Interrupted))
      && InformedAnyway(relay, h)
    case Broken(error) =>
      && r in {Err(Interrupted), Err(Relay(error))}
      && Abandoned(relay, setting.requestSize, h, error, r == Err(Interrupted))
      && (relay.completion.Some? <==> relay.request.Some? && small)
      && Tells(relay.completion, relay.ids, context, AbortedOutcome(AbortReasonFor(error), Relay(error)))
      && Informed(relay, h) && (r == Err(Interrupted) ==> InformedAnyway(relay, h))
    case Judged(judgement) =>
      && ViewOf(h).response.Some? && (relay.completion.Some? <==> small)
      && Tells(relay.completion, relay.ids, context, OutcomeOf(judgement))
      && if IsDeviceError(judgement) then r == judgement && Informed(relay, h)
         else HandedBack(relay, h, setting.completionSize, judgement, r)
  }

  /** A judgement is returned only once its outcome is handed off; that fails only for the relay's
      own reason, or gives way to cancellation. */
  ghost predicate HandedBack(relay: RelayExchange.RelayExchange, h: History, size: nat,
                             judgement: Result<string, RequestError>, r: Result<string, RequestError>)
    reads relay
  {
    || (r == Err(Interrupted) && InformedAnyway(relay, h))
    || (r == judgement && relay.completion.Some? && RelayExchange.HandedOff(h) && ViewOf(h).policy == NORMAL_RETRY_POLICY)
    || (r.Err? && r.error.Relay? && HandOffFails(relay, h, size, r.error.relayError))
  }

  /** At that moment so many failures in a row had been counted that no retry was left: ten, or
      fewer within two minutes. */
  ghost predicate RanOut(h: History, failures: nat) {
    var streak := Streak(h);
    && h.After? && (h.event.Failure? || h.event.Slept?) && |streak| == failures > 0
    && failures <= 10 && (failures == 10 || (if h.event.Failure? then h.event.now else h.event.woken) >= streak[0] + 120_000)
  }

  lemma SpentRanOut(ids: Ids, h: History)
    requires Legal(ids, h) && h.After? && (h.event.Failure? || h.event.Slept?)
    requires ViewOf(h).stage.Spent? && ViewOf(h).policy == NORMAL_RETRY_POLICY
    ensures RanOut(h, ViewOf(h).failures)
  {
    GivesUpForCause(ids, h.past, h.event);
    StreakReadsOff(h);
    LegalIsCoherent(ids, h);
  }

  /** A brief handoff gives up after two failures, or five seconds after the first. */
  lemma BriefIsBrief(ids: Ids, h: History)
    requires Legal(ids, h) && h.After? && (h.event.Failure? || h.event.Slept?)
    requires ViewOf(h).stage.Spent? && ViewOf(h).policy == BRIEF_RETRY_POLICY
    ensures Streak(h) != []
    ensures |Streak(h)| <= 2
    ensures |Streak(h)| == 2 || (if h.event.Failure? then h.event.now else h.event.woken) >= Streak(h)[0] + 5000
    ensures forall p :: Continues(p, h) ==> ViewOf(p).policy == RetryPolicy(250, 5000, 2)
  {
    GivesUpForCause(ids, h.past, h.event);
    StreakReadsOff(h);
    LegalIsCoherent(ids, h);
    forall p | Continues(p, h)
      ensures ViewOf(p).policy == RetryPolicy(250, 5000, 2)
    {
      ContinuesUnderPolicy(p, h);
    }
  }

  /** An exchange that reports exhausted retries really had no connection that lasted: ten failures
      in a row, or failures for two minutes. */
  lemma TimesOutForCause(relay: RelayExchange.RelayExchange, size: nat, h: History, failures: nat)
    requires Legal(relay.ids, h) && FailedFor(relay, size, h, RetriesExhausted(failures))
    ensures exists p :: Extends(p, h) && RanOut(p, failures)
  {
    var p :| Extends(p, h) && Breaks(relay, p, RetriesExhausted(failures));
    ExtensionPersists(relay.ids, p, h);
    SpentRanOut(relay.ids, p);
  }

  predicate HandOffFails(relay: RelayExchange.RelayExchange, h: History, size: nat, error: RelayError) {
    || (size > RelayExchange.MAXIMUM_FRAME_SIZE && error == FrameTooLarge(size))
    || (RelayExchange.CallFails(relay.kind, relay.ids, h, error) && ViewOf(h).policy == NORMAL_RETRY_POLICY)
  }

  /** What the caller supplies besides the request: a clock reading, a fresh rotation key,
      and the lengths of the two serialized messages. */
  datatype Setting = Setting(now: nat, rotationKey: string, requestSize: nat, completionSize: nat)

  // ---- The parts --------------------------------------------------------

  method SealAborted(session: Session, reason: AbortReason, cause: RequestError) returns (r: Option<Payload>)
    requires session.Valid()
    modifies session
    ensures session.Valid()
    ensures old(session.state) == RequestSealed ==>
      r == Some(SealedCompletion(Ciphertext(session.context, 1, Completed(AbortedOutcome(reason, cause)))))
  {
    var completion := session.SealCompletion(AbortedOutcome(reason, cause));
    r := if completion.Ok? then Some(completion.value) else None;
  }

  /** Cancellation before the response: the device is told only if it can know the request. */
  method Cancel(session: Session, relay: RelayExchange.RelayExchange, size: nat, world: World)
    returns (r: Result<string, RequestError>)
    requires session.Valid() && session.state == RequestSealed && relay.Valid(world) && relay.completion == None
    modifies session, relay, world`at, world`clock, world`history
    ensures session.Valid() && relay.Valid(world) && r == Err(Interrupted) && world.at >= old(world.at)
    ensures Tells(relay.completion, relay.ids, session.context, AbortedOutcome(Cancelled, Interrupted))
    ensures relay.completion.Some? <==> old(relay.RequestWasSent()) && size <= RelayExchange.MAXIMUM_FRAME_SIZE
    ensures !old(relay.RequestWasSent()) ==> world.history == old(world.history)
    ensures relay.completion.Some? ==> LastCall(world.history) == old(world.history)
    ensures Informed(relay, world.history)
    ensures Extends(old(world.history), world.history) && RelayExchange.SameText(old(relay.request), relay.request)
  {
    if relay.RequestWasSent() {
      var completion := SealAborted(session, Cancelled, Interrupted);
      if completion.Some? {
        var _ := relay.CompleteBriefly(completion.value, size, world);
      }
    }
    return Err(Interrupted);
  }

  /** The relay exchange failed: the device gets a brief abort, even under cancellation. */
  method Abandon(error: RelayError, session: Session, relay: RelayExchange.RelayExchange, size: nat, world: World)
    returns (r: Result<string, RequestError>)
    requires session.Valid() && session.state == RequestSealed && relay.Valid(world) && relay.completion == None
    modifies session, relay, world`at, world`clock, world`history
    ensures session.Valid() && relay.Valid(world) && world.at >= old(world.at)
    ensures r == Err(Relay(error)) || (r == Err(Interrupted) && world.DroppedSince(old(world.at)))
    ensures r == Err(Interrupted) <==> Cancellations(world.history) > Cancellations(old(world.history))
    ensures world.script(old(world.at)).dropped ==> r == Err(Interrupted)
    ensures relay.request == None ==> world.history == After(old(world.history), Polled(r == Err(Interrupted)))
    ensures Informed(relay, world.history) && (r == Err(Interrupted) ==> InformedAnyway(relay, world.history))
    ensures Tells(relay.completion, relay.ids, session.context, AbortedOutcome(AbortReasonFor(error), Relay(error)))
    ensures relay.completion.Some? <==> old(relay.request).Some? && size <= RelayExchange.MAXIMUM_FRAME_SIZE
    ensures Extends(old(world.history), world.history) && RelayExchange.SameText(old(relay.request), relay.request)
  {
    ExtendsTransitiveFrom(world.history);
    var completion := SealAborted(session, AbortReasonFor(error), Relay(error));
    if completion.Some? {
      var cancelled := relay.Poll(world);
      if cancelled {
        var _ := relay.CompleteBriefly(completion.value, size, world);
        return Err(Interrupted);
      }
      var brief := relay.CompleteBriefly(completion.value, size, world);
      if brief.Dropped? {
        var _ := relay.CompleteBriefly(completion.value, size, world);
        return Err(Interrupted);
      }
    }
    return Err(Relay(error));
  }

  /** Judges a response. A rotation that the response confirms is cleared first. */
  method Decide(reply: Result<Reply, CryptoError>, rotationKey: Option<string>, file: PairingFile.PairingFile,
                validate: string -> Result<string, string>)
    returns (r: Result<string, RequestError>)
    modifies file
    ensures r == Judgement(reply, rotationKey, old(file.Found()), validate)
    ensures if Confirms(reply, rotationKey).Some?
            then file.turn == old(file.turn) + 1
                 && file.contents == FileAfter(Confirms(reply, rotationKey), old(file.Found()))
            else unchanged(file)
  {
    if reply.Err? {
      return Err(RequestError.Crypto(reply.error));
    }
    if rotationKey.Some? {
      var cleared := file.ClearRotationKey(rotationKey.value);
      if cleared.Err? {
        return Err(Configuration(cleared.error));
      }
    }
    return Judge(reply.value, validate);
  }

  /** Tells the device the outcome of a judgement and returns it once that is handed off. */
  method Conclude(judgement: Result<string, RequestError>, session: Session, relay: RelayExchange.RelayExchange,
                  setting: Setting, world: World)
    returns (r: Result<string, RequestError>)
    requires session.Valid() && relay.Valid(world) && relay.completion == None && relay.request.Some?
    requires ViewOf(world.history).response.Some?
    modifies session, relay, world`at, world`clock, world`history
    ensures session.Valid() && relay.Valid(world) && world.at >= old(world.at)
    ensures if old(session.state) == RequestSealed
            then Concluded(relay, session.context, world.history, Judged(judgement), setting, r)
            else r == Err(RequestError.Crypto(MessageOrder)) && world.history == old(world.history)
    ensures r == Err(Interrupted) ==> world.DroppedSince(old(world.at)) || judgement == r
    ensures old(session.state) == RequestSealed && !IsDeviceError(judgement) && world.DroppedSince(old(world.at)) ==>
      r == Err(Interrupted)
    ensures Said(session.context, world.history) == Said(session.context, old(world.history))
    ensures Extends(old(world.history), world.history) && RelayExchange.SameText(old(relay.request), relay.request)
  {
    ghost var heard := world.history;
    var completion := session.SealCompletion(OutcomeOf(judgement));
    if completion.Err? {
      return Err(RequestError.Crypto(completion.error));
    }
    if IsDeviceError(judgement) {
      var _ := relay.CompleteBriefly(completion.value, setting.completionSize, world);
      ExtensionPersists(relay.ids, heard, world.history);
      return judgement;
    }
    r := HandBack(judgement, completion.value, relay, setting.completionSize, world);
    ExtensionPersists(relay.ids, heard, world.history);
  }

  /** Hands off the outcome of a judgement and then returns the judgement. */
  method HandBack(judgement: Result<string, RequestError>, completion: Payload, relay: RelayExchange.RelayExchange,
                  size: nat, world: World)
    returns (r: Result<string, RequestError>)
    requires relay.Valid(world) && relay.completion == None && relay.request.Some?
    modifies relay, world`at, world`clock, world`history
    ensures relay.Valid(world) && world.at >= old(world.at) && Extends(old(world.history), world.history)
    ensures RelayExchange.SameText(old(relay.request), relay.request)
    ensures RelayExchange.Carries(relay.ids, None, relay.completion, true, completion, size)
    ensures HandedBack(relay, world.history, size, judgement, r)
    ensures r == Err(Interrupted) ==> world.DroppedSince(old(world.at)) || judgement == r
    ensures world.DroppedSince(old(world.at)) ==> r == Err(Interrupted)
  {
    var cancelled := relay.CompleteOrCancel(completion, size, world);
    match cancelled
    case Failed(error) => return Err(Relay(error));
    case Dropped => return Err(Interrupted);
    case Done(true) => return Err(Interrupted);
    case Done(false) =>
      LegalIsCoherent(relay.ids, world.history);
      return judgement;
  }

  /** Seals the request for a pairing and prepares the relay exchange that carries it. */
  method SealRequest(pairing: PairingFile.Pairing, requestId: string, contents: string, ghost world: World)
    returns (request: Payload, session: Session, relay: RelayExchange.RelayExchange)
    modifies world`history, world`ids, world`kind, world`start
    ensures fresh(session) && fresh(relay)
    ensures session.Valid() && session.state == RequestSealed
    ensures session.context == Context(requestId, pairing.clientPsk) && session.rotationKey == pairing.rotationKey
    ensures request == SealedRequest(Ciphertext(session.context, 0, Application(contents)), session.rotationKey)
    ensures world.start == Moment(world.at, world.clock)
    ensures relay.Valid(world) && world.history == Start && relay.request == None && relay.completion == None
    ensures relay.ids == Ids(pairing.clientId, requestId) && relay.kind == ClientConnection
  {
    session := new Session(Context(requestId, pairing.clientPsk), pairing.rotationKey);
    var sealed := session.SealRequest(contents);
    request := sealed.value;
    relay := new RelayExchange.RelayExchange(Ids(pairing.clientId, requestId), ClientConnection, world);
  }

  /** How a request can end, with the reasons for it. */
  ghost predicate Ends(response: Await<Response>, relay: RelayExchange.RelayExchange, size: nat, h: History)
    reads relay
  {
    match response
    case Done(_) => relay.request.Some? && RelayExchange.Answered(relay.kind, relay.ids, h, response)
    case Failed(error) =>
      if relay.request == None then size > RelayExchange.MAXIMUM_FRAME_SIZE && error == FrameTooLarge(size)
      else Breaks(relay, h, error)
    case Dropped => CutOff(h)
  }

  /** Sends the request and waits, unless the exchange is cancelled before it starts. */
  method Ask(request: Payload, relay: RelayExchange.RelayExchange, size: nat, world: World)
    returns (response: Await<Response>)
    requires relay.Valid(world) && relay.request == None
    modifies relay`connected, relay`request, world`at, world`clock, world`history
    ensures relay.Valid(world) && Ends(response, relay, size, world.history) && world.at >= old(world.at)
    ensures response.Dropped? <==> world.DroppedSince(old(world.at))
    ensures world.script(old(world.at)).dropped ==> response.Dropped? && relay.request == None
    ensures relay.request.Some? ==> relay.request.value.text == OutgoingFrame.Send(relay.ids, RequestMessage, request)
  {
    var cancelled := relay.Poll(world);
    if cancelled {
      return Dropped;
    }
    ghost var from, polled := old(world.at), world.at;
    response := Obtain(request, relay, size, world);
    world.DroppedInParts(from, polled);
  }

  /** Sends the request and waits for the response. */
  method Obtain(request: Payload, relay: RelayExchange.RelayExchange, size: nat, world: World)
    returns (response: Await<Response>)
    requires relay.Valid(world) && relay.request == None
    modifies relay`connected, relay`request, world`at, world`clock, world`history
    ensures relay.Valid(world) && Ends(response, relay, size, world.history) && world.at >= old(world.at)
    ensures response.Dropped? <==> world.DroppedSince(old(world.at))
    ensures relay.request.Some? ==> relay.request.value.text == OutgoingFrame.Send(relay.ids, RequestMessage, request)
  {
    response := relay.Request(request, size, world);
  }

  /** The response of an answered request is the first one the relay delivered. */
  lemma AnswerIsFirst(kind: ConnectionKind, ids: Ids, context: Context, h: History, answer: Response)
    requires RelayExchange.Answered(kind, ids, h, Done(answer))
    ensures ViewOf(h).response.Some? && ViewOf(h).response.value.response == Some(answer)
    ensures Said(context, h) == if answer.context == context then Ok(answer.reply) else Err(DecryptionFailed)
  {
    FirstPayloadIsKept(h);
  }

  /** A judgement is never that of a cancellation, or of a session out of order. */
  lemma JudgesOnly(said: Result<Reply, CryptoError>, rotationKey: Option<string>, found: PairingFile.File,
                   validate: string -> Result<string, string>)
    requires said.Err? ==> said.error == DecryptionFailed
    ensures var judgement := Judgement(said, rotationKey, found, validate);
      judgement != Err(Interrupted) && judgement != Err(RequestError.Crypto(MessageOrder))
  {
  }

  /** Judges an answer, and tells the device the outcome. */
  method Respond(answer: Response, session: Session, relay: RelayExchange.RelayExchange,
                 file: PairingFile.PairingFile, validate: string -> Result<string, string>, setting: Setting,
                 world: World)
    returns (r: Result<string, RequestError>, ghost judgement: Result<string, RequestError>)
    requires session.Valid() && session.state == RequestSealed
    requires relay.Valid(world) && relay.completion == None && relay.request.Some?
    requires RelayExchange.Answered(relay.kind, relay.ids, world.history, Done(answer))
    modifies session, relay, file, world`at, world`clock, world`history
    ensures session.Valid() && relay.Valid(world) && world.at >= old(world.at)
    ensures RelayExchange.SameText(old(relay.request), relay.request)
    ensures Concluded(relay, session.context, world.history, Judged(judgement), setting, r)
    ensures r == Err(Interrupted) ==> world.DroppedSince(old(world.at))
    ensures !IsDeviceError(judgement) && world.DroppedSince(old(world.at)) ==> r == Err(Interrupted)
    ensures r != Err(RequestError.Crypto(MessageOrder))
    ensures var said := Said(session.context, world.history);
      && judgement == Judgement(said, session.rotationKey, old(file.Found()), validate)
      && if Confirms(said, session.rotationKey).Some?
         then file.turn == old(file.turn) + 1
              && file.contents == FileAfter(Confirms(said, session.rotationKey), old(file.Found()))
         else unchanged(file)
  {
    ghost var asked := world.history;
    AnswerIsFirst(relay.kind, relay.ids, session.context, asked, answer);
    var judged := Decide(session.OpenResponse(answer), session.rotationKey, file, validate);
    judgement := judged;
    JudgesOnly(Said(session.context, asked), session.rotationKey, old(file.Found()), validate);
    r := Conclude(judged, session, relay, setting, world);
  }

  /** Deals with the end of the request, whichever it was. */
  method Settle(response: Await<Response>, session: Session, relay: RelayExchange.RelayExchange,
                file: PairingFile.PairingFile, validate: string -> Result<string, string>, setting: Setting,
                world: World)
    returns (r: Result<string, RequestError>, ghost ending: Ending)
    requires session.Valid() && session.state == RequestSealed
    requires relay.Valid(world) && relay.completion == None
    requires Ends(response, relay, setting.requestSize, world.history)
    modifies session, relay, file, world`at, world`clock, world`history
    ensures session.Valid() && relay.Valid(world) && world.at >= old(world.at)
    ensures RelayExchange.SameText(old(relay.request), relay.request)
    ensures Concluded(relay, session.context, world.history, ending, setting, r)
    ensures ending.Dismissed? <==> response.Dropped?
    ensures r == Err(Interrupted) ==> response.Dropped? || world.DroppedSince(old(world.at))
    ensures ending.Judged? && !IsDeviceError(ending.judgement) && world.DroppedSince(old(world.at)) ==>
      r == Err(Interrupted)
    ensures relay.request == None <==> old(relay.request) == None
    ensures r != Err(RequestError.Crypto(MessageOrder))
    ensures FileFollows(session, world.history, ending, old(file.turn), old(file.contents), file, validate)
  {
    ghost var asked := world.history;
    match response
    case Dropped =>
      LegalIsCoherent(relay.ids, asked);
      r := Cancel(session, relay, setting.completionSize, world);
      ExtensionPersists(relay.ids, asked, world.history);
      ending := Dismissed;
    case Failed(error) =>
      r := Abandon(error, session, relay, setting.completionSize, world);
      ending := Broken(error);
    case Done(answer) =>
      ghost var judgement;
      r, judgement := Respond(answer, session, relay, file, validate, setting, world);
      ending := Judged(judgement);
  }

  /** A judged response decides about the file as it was found then, and nothing else does. */
  ghost predicate FileFollows(session: Session, h: History, ending: Ending, turn: nat, known: PairingFile.File,
                              file: PairingFile.PairingFile, validate: string -> Result<string, string>)
    reads file
  {
    var said := Said(session.context, h);
    var found := file.Sight(turn, known);
    && (ending.Judged? ==> ending.judgement == Judgement(said, session.rotationKey, found, validate))
    && if ending.Judged? && Confirms(said, session.rotationKey).Some?
       then file.turn == turn + 1 && file.contents == FileAfter(Confirms(said, session.rotationKey), found)
       else file.turn == turn && file.contents == known
  }

  // ---- The whole exchange -----------------------------------------------

  /** What rotating if due and reading the pairing come to: the next look, the file, and the
      pairing that the exchange is made for. */
  function Preparation(file: PairingFile.PairingFile, turn: nat, known: PairingFile.File, setting: Setting)
    : (nat, PairingFile.File, Result<PairingFile.Pairing, ConfigurationError>)
  {
    var (n, found) := file.Deciding(turn + 1, file.Sight(turn, known), setting.now);
    if PairingFile.ReadActive(found).Err? then (n, found, PairingFile.ReadActive(found))
    else
      var rotated := PairingFile.Replace(found, PairingFile.Rotated(found, setting.now, setting.rotationKey));
      (n + 1, file.Sight(n, rotated), PairingFile.ReadActive(file.Sight(n, rotated)))
  }

  method Prepare(file: PairingFile.PairingFile, setting: Setting)
    returns (r: Result<PairingFile.Pairing, ConfigurationError>)
    modifies file
    ensures (file.turn, file.contents, r) == Preparation(file, old(file.turn), old(file.contents), setting)
  {
    var rotated := file.MaybeRotate(setting.now, setting.rotationKey);
    if rotated.Err? {
      return Err(rotated.error);
    }
    r := file.Read();
  }

  /** Runs one exchange. Cancellation is a dropped await of `world`. The ghost results are
      the relay exchange, once there is one, its session, and how the request ended. */
  method Exchange(file: PairingFile.PairingFile, requestId: string, contents: string, setting: Setting,
                  validate: string -> Result<string, string>, world: World)
    returns (r: Result<string, RequestError>, ghost exchange: RelayExchange.RelayExchange?,
             ghost sealer: Session?, ghost ending: Ending)
    modifies file, world
    ensures var (n, found, prepared) := Preparation(file, old(file.turn), old(file.contents), setting);
      match prepared
      case Err(error) =>
        exchange == null && r == Err(Configuration(error)) && file.turn == n && file.contents == found
      case Ok(pairing) =>
        && exchange != null && sealer != null && exchange.Valid(world) && sealer.Valid()
        && sealer.context == Context(requestId, pairing.clientPsk) && sealer.rotationKey == pairing.rotationKey
        && exchange.ids == Ids(pairing.clientId, requestId)
        && Asks(exchange.request, exchange.ids, sealer.context, contents, sealer.rotationKey)
        && Concluded(exchange, sealer.context, world.history, ending, setting, r)
        && FileFollows(sealer, world.history, ending, n, found, file, validate)
    ensures exchange != null ==>
      world.start == Moment(old(world.at), old(world.clock)) && Heeds(exchange, ending, old(world.at), world, r)
    ensures r == Err(Interrupted) ==> world.DroppedSince(old(world.at))
    ensures r != Err(RequestError.Crypto(MessageOrder))
  {
    exchange, sealer, ending := null, null, Dismissed;
    var pairing := Prepare(file, setting);
    if pairing.Err? {
      r := Err(Configuration(pairing.error));
      return;
    }
    var request, session, relay := SealRequest(pairing.value, requestId, contents, world);
    exchange, sealer := relay, session;
    r, ending := Negotiate(request, session, relay, file, validate, setting, world);
  }

  /** Asks, and deals with the end of that. Cancellation takes effect wherever it is seen. */
  method Negotiate(request: Payload, session: Session, relay: RelayExchange.RelayExchange,
                   file: PairingFile.PairingFile, validate: string -> Result<string, string>, setting: Setting,
                   world: World)
    returns (r: Result<string, RequestError>, ghost ending: Ending)
    requires session.Valid() && session.state == RequestSealed
    requires relay.Valid(world) && relay.request == None && relay.completion == None
    modifies session, relay, file, world`at, world`clock, world`history
    ensures session.Valid() && relay.Valid(world) && world.at >= old(world.at)
    ensures relay.request.Some? ==> relay.request.value.text == OutgoingFrame.Send(relay.ids, RequestMessage, request)
    ensures Concluded(relay, session.context, world.history, ending, setting, r)
    ensures FileFollows(session, world.history, ending, old(file.turn), old(file.contents), file, validate)
    ensures Heeds(relay, ending, old(world.at), world, r)
    ensures r != Err(RequestError.Crypto(MessageOrder))
  {
    ghost var from := world.at;
    var response := Ask(request, relay, setting.requestSize, world);
    ghost var asked := world.at;
    r, ending := Settle(response, session, relay, file, validate, setting, world);
    world.DroppedInParts(from, asked);
  }

  /** Cancellation at the very start dismisses a request that isn't made; after the response it
      changes the result, unless that is a device error; and it is never reported without cause. */
  ghost predicate Heeds(relay: RelayExchange.RelayExchange, ending: Ending, from: nat, world: World,
                        r: Result<string, RequestError>)
    reads relay, world
  {
    && (world.script(from).dropped ==> ending.Dismissed? && relay.request == None)
    && (ending.Judged? && !IsDeviceError(ending.judgement) && world.DroppedSince(from) ==> r == Err(Interrupted))
    && (r == Err(Interrupted) ==> world.DroppedSince(from))
  }

  // ---- From the reply to the result -------------------------------------

  /** The device is told the outcome, and the caller gets the result once that is handed off,
      unless that is cancelled or fails for the relay's own reason. */
  predicate ComesTo(relay: RelayExchange.RelayExchange, context: Context, outcome: Outcome,
                    result: Result<string, RequestError>, r: Result<string, RequestError>)
    reads relay
  {
    Tells(relay.completion, relay.ids, context, outcome)
    && (r == result || r == Err(Interrupted) || (r.Err? && r.error.Relay?))
  }

  /** The same for an answer that is no result. */
  predicate Aborts(relay: RelayExchange.RelayExchange, context: Context, error: RequestError,
                   r: Result<string, RequestError>)
    reads relay
  {
    ComesTo(relay, context, AbortedOutcome(InvalidResponse, error), Err(error), r)
  }

  /** What each reply comes to, once a rotation that it confirms could be cleared: an approval that
      validates is returned and told as approved, a denial is returned and told as that denial, and
      a device error is returned in any case and told as the client's; anything else is invalid. */
  lemma ReplyDecides(relay: RelayExchange.RelayExchange, session: Session, h: History, ending: Ending,
                     setting: Setting, turn: nat, known: PairingFile.File, file: PairingFile.PairingFile,
                     validate: string -> Result<string, string>, r: Result<string, RequestError>)
    requires Concluded(relay, session.context, h, ending, setting, r) && ending.Judged?
    requires FileFollows(session, h, ending, turn, known, file, validate)
    requires session.rotationKey.Some? ==> file.Sight(turn, known).Some?
    ensures match Authenticated(session.context, h)
      case Some(Approved(data)) =>
        (match validate(data)
         case Ok(value) => ComesTo(relay, session.context, ApprovedOutcome, Ok(value), r)
         case Err(reason) => Aborts(relay, session.context, Other(reason), r))
      case Some(Denied(reason, message)) =>
        ComesTo(relay, session.context, DeniedOutcome(reason, message), Err(RequestDenied(reason, message)), r)
      case Some(DeviceError(code, text)) =>
        && r == Err(DeviceRejected(code, text))
        && Tells(relay.completion, relay.ids, session.context,
                 AbortedOutcome(ClientError, DeviceRejected(code, text)))
      case Some(AbortedReply) =>
        Aborts(relay, session.context, Other("received an ABORTED result in a response"), r)
      case Some(_) => Aborts(relay, session.context, Other("response doesn't decode"), r)
      case None => Aborts(relay, session.context, RequestError.Crypto(DecryptionFailed), r)
  {
    var found := file.Sight(turn, known);
    if session.rotationKey.Some? {
      PairingFile.ClearedMeans(found, session.rotationKey.value);
    }
    assert Tells(relay.completion, relay.ids, session.context, OutcomeOf(ending.judgement));
  }

  /** If it couldn't be cleared, because there is no file any more, an authenticated reply comes to
      that, whatever it says. */
  lemma LostPairingDecides(relay: RelayExchange.RelayExchange, session: Session, h: History, ending: Ending,
                           setting: Setting, turn: nat, known: PairingFile.File, file: PairingFile.PairingFile,
                           validate: string -> Result<string, string>, r: Result<string, RequestError>)
    requires Concluded(relay, session.context, h, ending, setting, r) && ending.Judged?
    requires FileFollows(session, h, ending, turn, known, file, validate)
    requires session.rotationKey.Some? && file.Sight(turn, known) == None
    requires Authenticated(session.context, h).Some?
    ensures Aborts(relay, session.context, Configuration(NoPairing), r) && file.contents == None
  {
    PairingFile.ClearedMeans(None, session.rotationKey.value);
  }

  /** What a judged response does to the file as it is found then: an authenticated reply to a request
      with a rotation key takes that key out, and nothing else; any other leaves the file. */
  lemma ReplyDecidesFile(relay: RelayExchange.RelayExchange, session: Session, h: History, ending: Ending,
                         turn: nat, known: PairingFile.File, file: PairingFile.PairingFile,
                         validate: string -> Result<string, string>)
    requires FileFollows(session, h, ending, turn, known, file, validate)
    ensures ending.Judged? && session.rotationKey.Some? && Authenticated(session.context, h).Some? ==>
      var found := file.Sight(turn, known);
      file.contents ==
        if found.Some? && "rotation_key" in found.value
           && found.value["rotation_key"] == PairingFile.Json.Text(session.rotationKey.value)
        then Some(map m | m in found.value && m != "rotation_key" :: found.value[m])
        else found
    ensures !(ending.Judged? && session.rotationKey.Some? && Authenticated(session.context, h).Some?) ==>
      file.contents == known && file.turn == turn
  {
    if session.rotationKey.Some? {
      PairingFile.ClearedMeans(file.Sight(turn, known), session.rotationKey.value);
    }
  }

  /** What the device is told when the relay exchange failed. */
  lemma FailureIsTold(relay: RelayExchange.RelayExchange, context: Context, h: History, error: RelayError,
                      setting: Setting, r: Result<string, RequestError>)
    requires Concluded(relay, context, h, Broken(error), setting, r)
    ensures r == Err(Relay(error)) || r == Err(Interrupted)
    ensures error.RetriesExhausted? ==>
      Tells(relay.completion, relay.ids, context, AbortedOutcome(TimedOut, Relay(error)))
    ensures error.UnexpectedStatus? && 400 <= error.status <= 499 ==>
      Tells(relay.completion, relay.ids, context, AbortedOutcome(ClientError, Relay(error)))
    ensures !error.RetriesExhausted? && !(error.UnexpectedStatus? && 400 <= error.status <= 499) ==>
      Tells(relay.completion, relay.ids, context, AbortedOutcome(InvalidResponse, Relay(error)))
  {
  }

  /** The result and what the device is told never disagree: a value is returned only after
      an authenticated approval that validated and an approved completion the relay took
      over, and a denial only after the same denial was handed back. */
  lemma ResultAgreesWithOutcome(relay: RelayExchange.RelayExchange, session: Session, h: History, ending: Ending,
                                setting: Setting, turn: nat, known: PairingFile.File,
                                file: PairingFile.PairingFile, validate: string -> Result<string, string>,
                                r: Result<string, RequestError>)
    requires Concluded(relay, session.context, h, ending, setting, r)
    requires FileFollows(session, h, ending, turn, known, file, validate)
    ensures var reply := Authenticated(session.context, h);
      && (r.Ok? ==>
            && reply.Some? && reply.value.Approved? && validate(reply.value.data) == Ok(r.value)
            && relay.completion.Some? && RelayExchange.HandedOff(h)
            && Tells(relay.completion, relay.ids, session.context, ApprovedOutcome))
      && (r.Err? && r.error.RequestDenied? ==>
            && reply == Some(Denied(r.error.reason, r.error.message))
            && relay.completion.Some? && RelayExchange.HandedOff(h)
            && Tells(relay.completion, relay.ids, session.context, DeniedOutcome(r.error.reason, r.error.message)))
      && (relay.completion.Some? && Tells(relay.completion, relay.ids, session.context, ApprovedOutcome) ==>
            reply.Some? && reply.value.Approved? && validate(reply.value.data).Ok?)
  {
    if ending.Judged? {
      assert Tells(relay.completion, relay.ids, session.context, OutcomeOf(ending.judgement));
    }
  }
}
