/** Finishing and removing a pairing: the exchange with the device decides whether the
    pairing file changes, and the device is told only about changes that were made. */
module PairingExchange {
  import opened Wrappers
  import opened Protocol
  import opened Retry
  import opened Schedule
  import opened RelayHistory
  import opened Crypto
  import opened ApprovalExchange
  import RelayExchange
  import PairingFile

  /** Ends the exchange after an authenticated device error. */
  method RejectDeviceError(code: string, text: string, session: Session, relay: RelayExchange.RelayExchange,
                           size: nat, world: World)
    returns (error: RequestError)
    requires session.Valid() && session.state == RequestSealed && relay.Valid(world) && relay.completion == None
    modifies session, relay, world`at, world`clock, world`history
    ensures session.Valid() && relay.Valid(world) && error == DeviceRejected(code, text)
    ensures Tells(relay.completion, relay.ids, session.context, AbortedOutcome(ClientError, error))
    ensures relay.completion.Some? <==> old(relay.request).Some? && size <= RelayExchange.MAXIMUM_FRAME_SIZE
    ensures Extends(old(world.history), world.history) && RelayExchange.SameText(old(relay.request), relay.request)
    ensures Informed(relay, world.history) && world.at >= old(world.at)
  {
    error := DeviceRejected(code, text);
    var completion := SealAborted(session, ClientError, error);
    if completion.Some? {
      var _ := relay.CompleteBriefly(completion.value, size, world);
    }
  }

  // ---- What an exchange may do to the file ------------------------------

  datatype Purpose = Finish | Remove

  /** The device agreed to what the exchange is for; a removal is agreed to by an empty message. */
  predicate Agrees(purpose: Purpose, reply: Reply) {
    match purpose
    case Finish => reply.PairingAccepted?
    case Remove => reply.EmptyReply?
  }

  /** What an opened reply to the removal or finish request means; errors end the exchange. */
  function Verdict(purpose: Purpose, reply: Result<Reply, CryptoError>): Result<(), RequestError> {
    match reply
    case Err(error) => Err(RequestError.Crypto(error))
    case Ok(DeviceError(code, text)) => Err(DeviceRejected(code, text))
    case Ok(value) =>
      if Agrees(purpose, value) then Ok(())
      else if purpose.Finish? && value.PairingRefused? then Err(PairingRejected)
      else Err(Other("response doesn't decode"))
  }

  /** What the device is told once the file has been changed. */
  function Success(purpose: Purpose): Outcome {
    match purpose
    case Finish => ActivatedOutcome
    case Remove => RemovedOutcome
  }

  /** The change to the file that an exchange is for. */
  function Change(purpose: Purpose, file: PairingFile.File, pairing: PairingFile.Pairing): PairingFile.Updated {
    match purpose
    case Finish => PairingFile.Finished(file, pairing.clientId)
    case Remove => PairingFile.RemovedActive(file, pairing.deviceId, pairing.clientId)
  }

  /** How the request ended: like any request, or with the device's verdict. */
  datatype Answer = Unanswered(failure: Option<RelayError>) | Answered(verdict: Result<(), RequestError>)

  /** What the first response heard decides. Without an answer, or with one that isn't agreement,
      the exchange fails for exactly that reason, and the device is told at most that it
      rejected the request itself. */
  ghost predicate Decides(purpose: Purpose, answer: Answer, relay: RelayExchange.RelayExchange, context: Context,
                          h: History, setting: Setting, r: Result<(), RequestError>)
    reads relay
  {
    match answer
    case Unanswered(None) => r == Err(Interrupted) && relay.completion == None
    case Unanswered(Some(error)) =>
      && r == Err(Relay(error)) && relay.completion == None
      && FailedFor(relay, setting.requestSize, h, error)
    case Answered(verdict) =>
      && verdict == Verdict(purpose, Said(context, h)) && relay.request.Some? && ViewOf(h).response.Some?
      && (verdict.Err? ==>
            && r == verdict
            && (relay.completion.Some? <==>
                  verdict.error.DeviceRejected? && setting.completionSize <= RelayExchange.MAXIMUM_FRAME_SIZE)
            && Tells(relay.completion, relay.ids, context, AbortedOutcome(ClientError, verdict.error))
            && Informed(relay, h))
  }

  /** An exchange that the device agreed to. The change is made, or refused, for the pairing of
      the request, and only after a change that was made is the device told of it. */
  ghost predicate Changed(purpose: Purpose, pairing: PairingFile.Pairing, relay: RelayExchange.RelayExchange,
                          context: Context, found: PairingFile.File, contents: PairingFile.File,
                          r: Result<(), RequestError>)
    reads relay
  {
    var change := Change(purpose, found, pairing);
    && contents == PairingFile.Replace(found, change)
    && match change
       case Err(error) => relay.completion == None && r == Err(Configuration(error))
       case Ok(_) => Tells(relay.completion, relay.ids, context, Success(purpose))
  }

  /** Cancellation at the very start leaves the request unmade; wherever it happens before the
      device has agreed, the result is Interrupted, unless that is a device error. */
  ghost predicate Heeds(answer: Answer, relay: RelayExchange.RelayExchange, from: nat, world: World,
                        r: Result<(), RequestError>)
    reads relay, world
  {
    && (world.script(from).dropped ==> answer == Unanswered(None) && relay.request == None)
    && (answer != Answered(Ok(())) && world.DroppedSince(from) ==>
          r == Err(Interrupted) || (r.Err? && r.error.DeviceRejected?))
    && (r == Err(Interrupted) ==> world.DroppedSince(from))
  }

  // ---- The exchanges ----------------------------------------------------

  /** Waits for the device's verdict on a sealed request. */
  method Consult(purpose: Purpose, request: Payload, session: Session, relay: RelayExchange.RelayExchange,
                 setting: Setting, world: World)
    returns (r: Result<(), RequestError>, ghost answer: Answer)
    requires session.Valid() && session.state == RequestSealed
    requires relay.Valid(world) && relay.request == None && relay.completion == None
    modifies session, relay, world`at, world`clock, world`history
    ensures session.Valid() && relay.Valid(world) && world.at >= old(world.at)
    ensures relay.request.Some? ==> relay.request.value.text == OutgoingFrame.Send(relay.ids, RequestMessage, request)
    ensures Decides(purpose, answer, relay, session.context, world.history, setting, r)
    ensures r.Ok? <==> answer == Answered(Ok(()))
    ensures r.Ok? ==> session.state == RequestSealed && relay.completion == None
    ensures Heeds(answer, relay, old(world.at), world, r)
    ensures r.Ok? ==> !world.DroppedSince(old(world.at))
    ensures r == Err(Interrupted) <==> answer == Unanswered(None)
  {
    var response := Ask(request, relay, setting.requestSize, world);
    match response
    case Dropped =>
      return Err(Interrupted), Unanswered(None);
    case Failed(error) =>
      return Err(Relay(error)), Unanswered(Some(error));
    case Done(given) =>
      AnswerIsFirst(relay.kind, relay.ids, session.context, world.history, given);
      var reply := session.OpenResponse(given);
      answer := Answered(Verdict(purpose, reply));
      if reply.Ok? && reply.value.DeviceError? {
        ghost var asked := world.history;
        var error := RejectDeviceError(reply.value.code, reply.value.text, session, relay, setting.completionSize,
                                       world);
        ExtensionPersists(relay.ids, asked, world.history);
        return Err(error), answer;
      }
      return Verdict(purpose, reply), answer;
  }

  /** The news of an activation is handed off. Cancellation only shortens that and isn't reported,
      unless the caller's own future is dropped; otherwise it fails for the relay's own reason. */
  ghost predicate Handed(relay: RelayExchange.RelayExchange, h: History, size: nat, from: nat, world: World,
                         r: Result<(), RequestError>)
    reads relay, world
  {
    && (relay.completion.Some? <==> size <= RelayExchange.MAXIMUM_FRAME_SIZE)
    && (world.DroppedSince(from) ==> InformedAnyway(relay, h))
    && match r
       case Ok(_) =>
         && (world.DroppedSince(from) || (RelayExchange.HandedOff(h) && ViewOf(h).policy == NORMAL_RETRY_POLICY))
         && !(relay.completion.Some? && h.After? && h.event == Polled(true))
       case Err(Interrupted) =>
         world.DroppedSince(from) && relay.completion.Some? && h.After? && h.event == Polled(true)
       case Err(error) =>
         !world.DroppedSince(from) && error.Relay? && HandOffFails(relay, h, size, error.relayError)
  }

  /** Hands off the news of an activation. Cancellation only shortens that. */
  method HandOff(completion: Payload, ghost outcome: Outcome, session: Session, relay: RelayExchange.RelayExchange,
                 size: nat, world: World)
    returns (r: Result<(), RequestError>)
    requires relay.Valid(world) && relay.completion == None && relay.request.Some?
    requires Authenticated(session.context, world.history).Some?
    requires completion == SealedCompletion(Ciphertext(session.context, 1, Completed(outcome)))
    modifies relay, world`at, world`clock, world`history
    ensures relay.Valid(world) && Tells(relay.completion, relay.ids, session.context, outcome)
    ensures Handed(relay, world.history, size, old(world.at), world, r)
    ensures Said(session.context, world.history) == Said(session.context, old(world.history))
    ensures RelayExchange.SameText(old(relay.request), relay.request) && world.at >= old(world.at)
  {
    ghost var before := world.history;
    LegalIsCoherent(relay.ids, before);
    var cancelled := relay.CompleteOrCancel(completion, size, world);
    ExtensionPersists(relay.ids, before, world.history);
    match cancelled
    case Failed(error) => r := Err(Relay(error));
    case Dropped => r := Err(Interrupted);
    case Done(_) => r := Ok(());
  }

  /** Activates the pairing that the device has agreed to and, if that was made, says so. */
  method Activate(pairing: PairingFile.Pairing, file: PairingFile.PairingFile, session: Session,
                  relay: RelayExchange.RelayExchange, size: nat, world: World)
    returns (r: Result<(), RequestError>)
    requires session.Valid() && session.state == RequestSealed
    requires relay.Valid(world) && relay.completion == None && relay.request.Some?
    requires Authenticated(session.context, world.history).Some?
    modifies session, relay, file, world`at, world`clock, world`history
    ensures relay.Valid(world) && world.at >= old(world.at) && file.turn == old(file.turn) + 1
    ensures var found := old(file.Found());
      && Changed(Finish, pairing, relay, session.context, found, file.contents, r)
      && (Change(Finish, found, pairing).Ok? ==> Handed(relay, world.history, size, old(world.at), world, r))
    ensures r == Err(Interrupted) ==> world.DroppedSince(old(world.at))
    ensures Said(session.context, world.history) == Said(session.context, old(world.history))
    ensures ViewOf(world.history).response.Some? && RelayExchange.SameText(old(relay.request), relay.request)
  {
    var completion := session.SealCompletion(ActivatedOutcome);
    var finished := file.FinishPending(pairing.clientId);
    if finished.Err? {
      return Err(Configuration(finished.error));
    }
    r := HandOff(completion.value, ActivatedOutcome, session, relay, size, world);
  }

  /** Activates a pending pairing once the device has accepted it. Cancellation after the
      activation isn't reported as a failure. */
  method FinishPairing(file: PairingFile.PairingFile, requestId: string, setting: Setting, world: World)
    returns (r: Result<(), RequestError>, ghost exchange: RelayExchange.RelayExchange?, ghost sealer: Session?,
             ghost answer: Answer)
    modifies file, world
    ensures var first := old(file.Found());
      match PairingFile.ReadPending(first)
      case Err(error) =>
        exchange == null && r == Err(Configuration(error)) && file.turn == old(file.turn) + 1 && file.contents == first
      case Ok(pairing) =>
        && exchange != null && sealer != null && exchange.Valid(world)
        && sealer.context == Context(requestId, pairing.clientPsk)
        && exchange.ids == Ids(pairing.clientId, requestId)
        && Asks(exchange.request, exchange.ids, sealer.context, "PAIRING_FINISH", pairing.rotationKey)
        && Decides(Finish, answer, exchange, sealer.context, world.history, setting, r)
        && if answer == Answered(Ok(()))
           then var found := file.Sight(old(file.turn) + 1, first);
             && file.turn == old(file.turn) + 2
             && Changed(Finish, pairing, exchange, sealer.context, found, file.contents, r)
             && (Change(Finish, found, pairing).Ok? ==>
                   Handed(exchange, world.history, setting.completionSize, old(world.at), world, r))
           else file.turn == old(file.turn) + 1 && file.contents == first
    ensures exchange != null ==>
      && world.start == Moment(old(world.at), old(world.clock))
      && Heeds(answer, exchange, old(world.at), world, r)
    ensures exchange != null ==>
      var reply := Authenticated(sealer.context, world.history);
      && (file.turn == old(file.turn) + 2 <==> answer.Answered? && reply == Some(PairingAccepted))
      && (answer.Answered? && reply == Some(PairingRefused) ==>
            r == Err(PairingRejected) && file.contents == old(file.Found()) && exchange.completion == None)
    ensures r == Err(Interrupted) ==> world.DroppedSince(old(world.at))
  {
    exchange, sealer, answer := null, null, Unanswered(None);
    var pending := file.ReadPendingPairing();
    if pending.Err? {
      r := Err(Configuration(pending.error));
      return;
    }
    var request, session, relay := SealRequest(pending.value, requestId, "PAIRING_FINISH", world);
    exchange, sealer := relay, session;
    r, answer := Finalize(pending.value, request, file, session, relay, setting, world);
    if answer.Answered? {
      FinishReplyDecides(answer, relay, session.context, world.history, setting, r);
    }
  }

  /** Activates a pairing if the device agrees to that. */
  method Finalize(pairing: PairingFile.Pairing, request: Payload, file: PairingFile.PairingFile, session: Session,
                  relay: RelayExchange.RelayExchange, setting: Setting, world: World)
    returns (r: Result<(), RequestError>, ghost answer: Answer)
    requires session.Valid() && session.state == RequestSealed
    requires relay.Valid(world) && relay.request == None && relay.completion == None
    modifies session, relay, file, world`at, world`clock, world`history
    ensures relay.Valid(world) && world.at >= old(world.at)
    ensures relay.request.Some? ==> relay.request.value.text == OutgoingFrame.Send(relay.ids, RequestMessage, request)
    ensures Decides(Finish, answer, relay, session.context, world.history, setting, r)
    ensures if answer == Answered(Ok(()))
            then var found := old(file.Found());
              && file.turn == old(file.turn) + 1
              && Changed(Finish, pairing, relay, session.context, found, file.contents, r)
              && (Change(Finish, found, pairing).Ok? ==>
                    Handed(relay, world.history, setting.completionSize, old(world.at), world, r))
            else unchanged(file)
    ensures Heeds(answer, relay, old(world.at), world, r)
  {
    ghost var from := world.at;
    r, answer := Consult(Finish, request, session, relay, setting, world);
    if r.Err? {
      return;
    }
    ghost var asked := world.at;
    assert !world.DroppedSince(from);
    r := Activate(pairing, file, session, relay, setting.completionSize, world);
    world.DroppedInParts(from, asked);
  }

  datatype RemoveError =
    | Unpaired(configurationError: ConfigurationError)
    | Refused(requestError: RequestError)
    | LocalState(configurationError: ConfigurationError)

  /** The news of a removal was really handed off, unless it is too large or that was cancelled. */
  ghost predicate Notified(relay: RelayExchange.RelayExchange, size: nat, from: nat, world: World)
    reads relay, world
  {
    && Informed(relay, world.history)
    && (size > RelayExchange.MAXIMUM_FRAME_SIZE ==> relay.completion == None)
    && (size <= RelayExchange.MAXIMUM_FRAME_SIZE && relay.completion == None ==>
          world.DroppedSince(from) && world.history.After? && world.history.event == Polled(true))
  }

  /** The result as the exchange itself sees it. */
  function Reason(r: Result<(), RemoveError>): Result<(), RequestError> {
    match r
    case Ok(_) => Ok(())
    case Err(Refused(error)) => Err(error)
    case Err(error) => Err(Configuration(error.configurationError))
  }

  /** Removes an active pairing once the device has agreed. The completion is best effort:
      a removal that was made is reported as a success whatever becomes of it. */
  method RemovePairing(file: PairingFile.PairingFile, requestId: string, setting: Setting, world: World)
    returns (r: Result<(), RemoveError>, ghost exchange: RelayExchange.RelayExchange?, ghost sealer: Session?,
             ghost answer: Answer)
    modifies file, world
    ensures var first := old(file.Found());
      match PairingFile.ReadActive(first)
      case Err(error) =>
        exchange == null && r == Err(Unpaired(error)) && file.turn == old(file.turn) + 1 && file.contents == first
      case Ok(pairing) =>
        && exchange != null && sealer != null && exchange.Valid(world)
        && sealer.context == Context(requestId, pairing.clientPsk)
        && exchange.ids == Ids(pairing.clientId, requestId)
        && Asks(exchange.request, exchange.ids, sealer.context, "PAIRING_REMOVE", pairing.rotationKey)
        && Decides(Remove, answer, exchange, sealer.context, world.history, setting, Reason(r))
        && if answer == Answered(Ok(()))
           then var found := file.Sight(old(file.turn) + 1, first);
             && file.turn == old(file.turn) + 2
             && Changed(Remove, pairing, exchange, sealer.context, found, file.contents, Reason(r))
             && (match Change(Remove, found, pairing)
                 case Ok(_) => r.Ok? && Notified(exchange, setting.completionSize, old(world.at), world)
                 case Err(error) => r == Err(LocalState(error)))
           else file.turn == old(file.turn) + 1 && file.contents == first && r.Err? && r.error.Refused?
    ensures exchange != null ==>
      && world.start == Moment(old(world.at), old(world.clock))
      && Heeds(answer, exchange, old(world.at), world, Reason(r))
    ensures exchange != null ==>
      var reply := Authenticated(sealer.context, world.history);
      && (file.turn == old(file.turn) + 2 <==> answer.Answered? && reply == Some(EmptyReply))
      && (answer.Answered? && reply != Some(EmptyReply) ==> r.Err? && file.contents == old(file.Found()))
    ensures Reason(r) == Err(Interrupted) ==> world.DroppedSince(old(world.at))
  {
    exchange, sealer, answer := null, null, Unanswered(None);
    var active := file.Read();
    if active.Err? {
      r := Err(Unpaired(active.error));
      return;
    }
    var request, session, relay := SealRequest(active.value, requestId, "PAIRING_REMOVE", world);
    exchange, sealer := relay, session;
    r, answer := Dissolve(active.value, request, file, session, relay, setting, world);
    if answer.Answered? {
      RemoveReplyDecides(answer, relay, session.context, world.history, setting, Reason(r));
    }
  }

  /** Deletes a pairing if the device agrees to that. */
  method Dissolve(pairing: PairingFile.Pairing, request: Payload, file: PairingFile.PairingFile, session: Session,
                  relay: RelayExchange.RelayExchange, setting: Setting, world: World)
    returns (r: Result<(), RemoveError>, ghost answer: Answer)
    requires session.Valid() && session.state == RequestSealed
    requires relay.Valid(world) && relay.request == None && relay.completion == None
    modifies session, relay, file, world`at, world`clock, world`history
    ensures relay.Valid(world) && world.at >= old(world.at)
    ensures relay.request.Some? ==> relay.request.value.text == OutgoingFrame.Send(relay.ids, RequestMessage, request)
    ensures Decides(Remove, answer, relay, session.context, world.history, setting, Reason(r))
    ensures if answer == Answered(Ok(()))
            then var found := old(file.Found());
              && file.turn == old(file.turn) + 1
              && Changed(Remove, pairing, relay, session.context, found, file.contents, Reason(r))
              && match Change(Remove, found, pairing)
                 case Ok(_) => r.Ok? && Notified(relay, setting.completionSize, old(world.at), world)
                 case Err(error) => r == Err(LocalState(error))
            else unchanged(file) && r.Err? && r.error.Refused?
    ensures Heeds(answer, relay, old(world.at), world, Reason(r))
  {
    ghost var from := world.at;
    var agreed;
    agreed, answer := Consult(Remove, request, session, relay, setting, world);
    if agreed.Err? {
      r := Err(RemoveError.Refused(agreed.error));
      return;
    }
    ghost var asked := world.at;
    r := Delete(pairing, file, session, relay, setting.completionSize, world);
    world.DroppedInParts(from, asked);
  }

  /** Deletes the pairing whose removal the device has agreed to and, if that was made, says so. */
  method Delete(pairing: PairingFile.Pairing, file: PairingFile.PairingFile, session: Session,
                relay: RelayExchange.RelayExchange, size: nat, world: World)
    returns (r: Result<(), RemoveError>)
    requires session.Valid() && session.state == RequestSealed
    requires relay.Valid(world) && relay.completion == None && relay.request.Some?
    requires Authenticated(session.context, world.history).Some?
    modifies session, relay, file, world`at, world`clock, world`history
    ensures relay.Valid(world) && world.at >= old(world.at) && file.turn == old(file.turn) + 1
    ensures var found := old(file.Found());
      && Changed(Remove, pairing, relay, session.context, found, file.contents, Reason(r))
      && match Change(Remove, found, pairing)
         case Ok(_) =>
           && r.Ok? && Notified(relay, size, old(world.at), world)
           && (world.script(old(world.at)).dropped ==> relay.completion == None)
         case Err(error) => r == Err(LocalState(error))
    ensures Said(session.context, world.history) == Said(session.context, old(world.history))
    ensures ViewOf(world.history).response.Some? && RelayExchange.SameText(old(relay.request), relay.request)
  {
    var completion := session.SealCompletion(RemovedOutcome);
    var removed := file.RemoveActive(pairing.deviceId, pairing.clientId);
    if removed.Err? {
      return Err(LocalState(removed.error));
    }
    NotifyRemoval(completion.value, session, relay, size, world);
    return Ok(());
  }

  /** Tells the device of a removal, unless that is cancelled at once. */
  method NotifyRemoval(completion: Payload, session: Session, relay: RelayExchange.RelayExchange, size: nat,
                       world: World)
    requires relay.Valid(world) && relay.completion == None && relay.request.Some?
    requires Authenticated(session.context, world.history).Some?
    requires completion == SealedCompletion(Ciphertext(session.context, 1, Completed(RemovedOutcome)))
    modifies relay, world`at, world`clock, world`history
    ensures relay.Valid(world) && Tells(relay.completion, relay.ids, session.context, RemovedOutcome)
    ensures Notified(relay, size, old(world.at), world)
    ensures world.script(old(world.at)).dropped ==> relay.completion == None
    ensures Said(session.context, world.history) == Said(session.context, old(world.history))
    ensures RelayExchange.SameText(old(relay.request), relay.request) && world.at >= old(world.at)
  {
    ghost var before := world.history;
    var cancelled := relay.Poll(world);
    ghost var polled := world.history;
    ExtensionPersists(relay.ids, before, polled);
    if cancelled {
      return;
    }
    LegalIsCoherent(relay.ids, polled);
    var _ := relay.CompleteBriefly(completion, size, world);
    ExtensionPersists(relay.ids, polled, world.history);
  }

  // ---- From the reply to the result -------------------------------------

  /** What each reply to a finish request comes to. Only an acceptance is agreement; otherwise the
      file is left as it was found, and the device is told at most of its own error. */
  lemma FinishReplyDecides(answer: Answer, relay: RelayExchange.RelayExchange, context: Context, h: History,
                           setting: Setting, r: Result<(), RequestError>)
    requires Decides(Finish, answer, relay, context, h, setting, r) && answer.Answered?
    ensures answer == Answered(Ok(())) <==> Authenticated(context, h) == Some(PairingAccepted)
    ensures match Authenticated(context, h)
      case Some(PairingAccepted) => true
      case Some(PairingRefused) => r == Err(PairingRejected) && relay.completion == None
      case Some(DeviceError(code, text)) =>
        && r == Err(DeviceRejected(code, text))
        && Tells(relay.completion, relay.ids, context, AbortedOutcome(ClientError, DeviceRejected(code, text)))
      case Some(_) => r == Err(Other("response doesn't decode")) && relay.completion == None
      case None => r == Err(RequestError.Crypto(DecryptionFailed)) && relay.completion == None
  {
  }

  /** What each reply to a removal request comes to. Only an empty message is agreement. */
  lemma RemoveReplyDecides(answer: Answer, relay: RelayExchange.RelayExchange, context: Context, h: History,
                           setting: Setting, r: Result<(), RequestError>)
    requires Decides(Remove, answer, relay, context, h, setting, r) && answer.Answered?
    ensures answer == Answered(Ok(())) <==> Authenticated(context, h) == Some(EmptyReply)
    ensures match Authenticated(context, h)
      case Some(EmptyReply) => true
      case Some(DeviceError(code, text)) =>
        && r == Err(DeviceRejected(code, text))
        && Tells(relay.completion, relay.ids, context, AbortedOutcome(ClientError, DeviceRejected(code, text)))
      case Some(_) => r == Err(Other("response doesn't decode")) && relay.completion == None
      case None => r == Err(RequestError.Crypto(DecryptionFailed)) && relay.completion == None
  {
  }

  /** The change that agreement makes, to the file as it is found then: the pending attempt of the
      request becomes active, and that is what the device is told; a file that doesn't hold it
      is left, with the reason, and nothing is told. */
  lemma FinishChanges(pairing: PairingFile.Pairing, relay: RelayExchange.RelayExchange, context: Context,
                      found: PairingFile.File, contents: PairingFile.File, r: Result<(), RequestError>)
    requires Changed(Finish, pairing, relay, context, found, contents, r)
    ensures PairingFile.ReadPending(found).Ok? && PairingFile.ReadPending(found).value.clientId == pairing.clientId ==>
      && PairingFile.ReadActive(contents) == Ok(PairingFile.ReadPending(found).value.(pending := false))
      && Tells(relay.completion, relay.ids, context, ActivatedOutcome)
    ensures PairingFile.ReadPending(found).Ok? && PairingFile.ReadPending(found).value.clientId != pairing.clientId ==>
      contents == found && r == Err(Configuration(PairingChanged)) && relay.completion == None
    ensures PairingFile.ReadActive(found).Ok? ==>
      contents == found && r == Err(Configuration(PairingNotPending)) && relay.completion == None
    ensures found == None ==> contents == None && r == Err(Configuration(NoPairing)) && relay.completion == None
  {
    PairingFile.FinishedMeans(found, pairing.clientId);
  }

  /** A removal that was agreed to leaves no file, or leaves alone a file that holds another pairing
      or nonsense; a pairing that is gone already counts as removed. */
  lemma RemoveChanges(pairing: PairingFile.Pairing, relay: RelayExchange.RelayExchange, context: Context,
                      found: PairingFile.File, contents: PairingFile.File, r: Result<(), RequestError>)
    requires Changed(Remove, pairing, relay, context, found, contents, r)
    ensures found == None ==> contents == None && Tells(relay.completion, relay.ids, context, RemovedOutcome)
    ensures PairingFile.ReadActive(found).Ok? ==>
      var p := PairingFile.ReadActive(found).value;
      if p.deviceId == pairing.deviceId && p.clientId == pairing.clientId
      then contents == None && Tells(relay.completion, relay.ids, context, RemovedOutcome)
      else contents == found && r == Err(Configuration(PairingChanged)) && relay.completion == None
    ensures PairingFile.ReadPending(found).Ok? ==>
      contents == found && r == Err(Configuration(PairingChanged)) && relay.completion == None
  {
    PairingFile.RemovedActiveMeans(found, pairing.deviceId, pairing.clientId);
  }
}
