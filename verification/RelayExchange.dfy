/** The relay side of one exchange: it resends or resumes after every disconnect,
    acknowledges the response, and hands off the completion. The world records what happens
    on its sockets, and every method keeps that history legal. */
module RelayExchange {
  import opened Wrappers
  import opened Protocol
  import opened Retry
  import opened RelayHistory
  import opened Schedule
  import opened RelayTheorems

  const MAXIMUM_FRAME_SIZE: nat := 256 * 1024

  datatype OutgoingMessage = OutgoingMessage(text: OutgoingFrame, sent: bool, acknowledged: bool)

  /** A message to send; `size` is the length of its serialized text. */
  function NewMessage(text: OutgoingFrame, size: nat): Result<OutgoingMessage, RelayError> {
    if size > MAXIMUM_FRAME_SIZE then Err(FrameTooLarge(size)) else Ok(OutgoingMessage(text, false, false))
  }

  /** A message of more than 256 KiB is refused. */
  lemma NewMessageMeans(text: OutgoingFrame, size: nat)
    ensures NewMessage(text, size) ==
      if size <= 262_144 then Ok(OutgoingMessage(text, false, false)) else Err(FrameTooLarge(size))
  {
  }

  /** A payload that parses as a protected response is one, whatever else it contains. */
  function DecodeResponse(response: Option<Value>): Result<Response, RelayError> {
    match response
    case None => Err(MissingResponse)
    case Some(Value(Some(response), _)) => Ok(response)
    case Some(Value(None, Some(error))) => Err(UnauthenticatedError(error.0, error.1))
    case Some(Value(None, None)) => Err(InvalidJson)
  }

  /** The response was acknowledged, or the relay reports that it needs no acknowledgement. */
  predicate ResponseSettled(ids: Ids, h: History) {
    && h.After?
    && (|| h.event == Wrote(Acknowledge(ids, ResponseMessage))
        || (h.event.Got? && h.event.incoming.State? && h.event.incoming.response == Delivered))
  }

  /** The relay has taken responsibility for the completion. */
  predicate ConfirmsCompletion(frame: IncomingFrame) {
    || (frame.Ack? && frame.kind == CompletionMessage)
    || (frame.State? && frame.completion in {Accepted, Delivered, Discarded})
  }

  predicate HandedOff(h: History) {
    h.After? && h.event.Got? && ConfirmsCompletion(h.event.incoming) && ViewOf(h).completionSent
  }

  /** The relay has just said that it has a completion, which was sent. */
  predicate Confirmed(h: History) {
    h.After? && ShowsCompletion(h.event) && ViewOf(h).completionSent
  }

  /** Confirmed is what the relay says it has: an acknowledged completion, or one that its snapshot
      doesn't report absent. */
  lemma HandedOffMeans(h: History)
    ensures HandedOff(h) <==> Confirmed(h)
  {
  }

  lemma FailedIsntHandedOff(kind: ConnectionKind, ids: Ids, h: History)
    ensures Cut(h) ==> !HandedOff(h)
    ensures forall error :: CallFails(kind, ids, h, error) ==> !HandedOff(h)
  {
  }

  /** With an honest relay, a completion that counts as handed off has been taken. */
  lemma HandedOffWasTaken(run: Run, h: History, request: Option<nat>, completion: Option<nat>)
    requires Scheduled(run, h) && IsHonest(run, request, completion) && HandedOff(h)
    ensures TakenBy(completion, MomentOf(run, h).at)
  {
    HandedOffMeans(h);
    ShownIsTrue(run, h, request, completion);
  }

  /** Acknowledged, or reported as delivered. */
  predicate NeedsNoAck(ids: Ids, event: Event) {
    match event
    case Wrote(Acknowledge(to, kind)) => to == ids && kind == ResponseMessage
    case Got(State(_, _, _, response, _)) => response == Delivered
    case _ => false
  }

  /** A request returns the first payload it was given, once that needs no acknowledgement: the
      response in it, the error in it if there is no response, or that there is neither. */
  lemma AnsweredMeans(kind: ConnectionKind, ids: Ids, h: History, r: Await<Response>)
    requires Answered(kind, ids, h, r)
    ensures r.Done? ==>
      && h.After? && NeedsNoAck(ids, h.event)
      && Payloads(h) != [] && Payloads(h)[0].response == Some(r.value)
    ensures h.After? && NeedsNoAck(ids, h.event) && Payloads(h) != [] ==>
      match Payloads(h)[0]
      case Value(Some(response), _) => r == Done(response)
      case Value(None, Some((code, text))) => r == Failed(UnauthenticatedError(code, text))
      case Value(None, None) => r == Failed(InvalidJson)
    ensures h.After? && NeedsNoAck(ids, h.event) && Payloads(h) == [] ==> r == Failed(MissingResponse)
    ensures r == Failed(MissingResponse) ==>
      h.After? && h.event.Got? && h.event.incoming.State?
      && (NeedsNoAck(ids, h.event) || h.event.incoming.exchange == Settled || h.event.incoming.exchange == Expired)
  {
    MissingMeans(kind, ids, h);
  }

  lemma MissingMeans(kind: ConnectionKind, ids: Ids, h: History)
    ensures !CallFails(kind, ids, h, MissingResponse)
    ensures forall code, text :: !CallFails(kind, ids, h, UnauthenticatedError(code, text))
  {
  }

  /** A message keeps its text for good. */
  predicate SameText(former: Option<OutgoingMessage>, message: Option<OutgoingMessage>) {
    && (former.Some? <==> message.Some?)
    && (former.Some? ==> message.value.text == former.value.text)
  }

  /** An open socket has its opening frame and, once the completion was sent, the completion,
      unless the write of either was cut short. */
  predicate Furnished(v: View) {
    v.socket.Open? ==>
      && (v.socket.written != [] || v.socket.openingCut)
      && (v.completionSent ==> (CompletionWritten(v) <==> !v.socket.replayCut))
  }

  /** How every call leaves an exchange. */
  predicate AtRest(v: View) {
    Between(v) && Furnished(v)
  }

  /** The retry loops run between two calls of `Connect`, `Receive` and the senders. */
  predicate Looping(v: View) {
    Running(v) && AtRest(v)
  }

  /** No retry is left after the failure just counted, or the sleep that followed it. */
  predicate GivesUp(h: History, error: RelayError) {
    && h.After? && (h.event.Failure? || h.event.Slept?)
    && ViewOf(h).stage == Spent && error == RetriesExhausted(ViewOf(h).failures)
  }

  /** A call fails where no retry is left, or where the network has just done what no retry
      can mend. */
  predicate CallFails(kind: ConnectionKind, ids: Ids, h: History, error: RelayError) {
    || GivesUp(h, error)
    || (h.After? && h.event.Ended? && Fatal(ids, h.event.arrival) == Some(error))
    || (h.After? && h.event.Refused? && FatalConnect(kind, h.event.outcome) == Some(error))
  }

  /** A response is returned only when it is the first one heard and needs no further
      acknowledgement. A request fails for a reason of every call, when the relay reports that
      there is no response, or when the first one heard doesn't decode. */
  predicate Answered(kind: ConnectionKind, ids: Ids, h: History, r: Await<Response>) {
    match r
    case Done(response) =>
      && Payloads(h) != [] && DecodeResponse(Some(Payloads(h)[0])) == Ok(response)
      && ResponseSettled(ids, h) && ViewOf(h).accepted
    case Failed(error) => RequestFails(kind, ids, h, error)
    case Dropped => CutOff(h)
  }

  predicate RequestFails(kind: ConnectionKind, ids: Ids, h: History, error: RelayError) {
    || CallFails(kind, ids, h, error)
    || (Payloads(h) != [] && DecodeResponse(Some(Payloads(h)[0])) == Err(error) && ResponseSettled(ids, h))
    || (&& error == MissingResponse && h.After? && h.event.Got? && h.event.incoming.State?
        && if h.event.incoming.response == Delivered then Payloads(h) == []
           else h.event.incoming.exchange in {Settled, Expired})
  }

  /** Every handoff of an exchange carries the completion of the first one. */
  predicate Carries(ids: Ids, former: Option<OutgoingMessage>, completion: Option<OutgoingMessage>, requested: bool,
                    payload: Payload, size: nat) {
    if former.Some? then completion.Some? && completion.value.text == former.value.text
    else
      && (completion.Some? <==> requested && size <= MAXIMUM_FRAME_SIZE)
      && (completion.Some? ==> completion.value.text == Send(ids, CompletionMessage, payload))
  }

  /** A handoff is done only when the relay says so. Without a request, or with a completion
      that is too large, it fails without effect; otherwise it is one call under the policy,
      which fails only for a reason of every call. */
  ghost predicate Concludes(kind: ConnectionKind, ids: Ids, past: History, former: Option<OutgoingMessage>,
                            completion: Option<OutgoingMessage>, size: nat, policy: RetryPolicy, h: History,
                            r: Await<()>) {
    if ViewOf(past).requestText == None then r == Failed(ProtocolViolation) && h == past
    else if former == None && size > MAXIMUM_FRAME_SIZE then r == Failed(FrameTooLarge(size)) && h == past
    else
      && completion.Some? && Continues(After(past, Began(HandOff(completion.value.text), policy)), h)
      && match r
         case Done(_) => HandedOff(h)
         case Failed(error) => CallFails(kind, ids, h, error)
         case Dropped => CutOff(h)
  }

  /** A handoff under the policy was really made: the relay took the completion over, or the
      call failed for a reason of every call, or its future was dropped. */
  ghost predicate Tried(kind: ConnectionKind, ids: Ids, policy: RetryPolicy, h: History) {
    && ViewOf(h).policy == policy
    && (HandedOff(h) || CutOff(h) || exists error :: CallFails(kind, ids, h, error))
  }

  /** Where a handoff was cancelled, a brief one was begun after that and really tried; it ends
      without a result only if the caller's own future was dropped then. */
  ghost predicate Shortened(kind: ConnectionKind, ids: Ids, completion: Option<OutgoingMessage>, h: History,
                            dropped: bool) {
    && (completion.Some? ==> Tried(kind, ids, BRIEF_RETRY_POLICY, h) && CutOff(LastCall(h)))
    && (dropped <==> completion.Some? && h.After? && h.event == Polled(true))
  }

  /** A handoff under the normal policy is done, or fails for cause, or is dropped. */
  ghost predicate HandsOver(kind: ConnectionKind, ids: Ids, former: Option<OutgoingMessage>, size: nat, h: History,
                            r: Await<()>) {
    match r
    case Done(_) => HandedOff(h) && ViewOf(h).policy == NORMAL_RETRY_POLICY
    case Failed(error) =>
      || (former == None && size > MAXIMUM_FRAME_SIZE && error == FrameTooLarge(size))
      || (CallFails(kind, ids, h, error) && ViewOf(h).policy == NORMAL_RETRY_POLICY)
    case Dropped => CutOff(h)
  }

  /** A handoff that yields to cancellation is done or fails under the normal policy, or was
      cancelled. */
  ghost predicate Yields(kind: ConnectionKind, ids: Ids, former: Option<OutgoingMessage>,
                         completion: Option<OutgoingMessage>, size: nat, h: History, r: Await<bool>) {
    match r
    case Done(false) => HandsOver(kind, ids, former, size, h, Done(()))
    case Failed(error) => HandsOver(kind, ids, former, size, h, Failed(error))
    case _ => Shortened(kind, ids, completion, h, r.Dropped?)
  }

  lemma ConcludesHandsOver(kind: ConnectionKind, ids: Ids, past: History, former: Option<OutgoingMessage>,
                           completion: Option<OutgoingMessage>, size: nat, h: History, r: Await<()>)
    requires Concludes(kind, ids, past, former, completion, size, NORMAL_RETRY_POLICY, h, r)
    requires ViewOf(past).requestText.Some?
    ensures HandsOver(kind, ids, former, size, h, r)
  {
    if former.Some? || size <= MAXIMUM_FRAME_SIZE {
      ContinuesUnderPolicy(After(past, Began(HandOff(completion.value.text), NORMAL_RETRY_POLICY)), h);
    }
  }

  /** What became of a loss: it is counted, and then the client has slept as long as the loss
      asks for and goes on, or no retry is left, or the future was dropped in the sleep. */
  predicate Counted<T>(lost: History, h: History, r: Await<T>) {
    && h.After?
    && (h.event.Failure? ==> r.Failed? && h.past == lost)
    && (!h.event.Failure? ==> h.past.After? && h.past.event.Failure? && h.past.past == lost)
    && match r
       case Done(_) => h.event.Slept? && ViewOf(h).stage == Going && ViewOf(lost).stage == Hit(h.event.duration)
       case Failed(error) => GivesUp(h, error)
       case Dropped => h.event == Stopped
  }

  /** Counting changes nothing but where the retries stand and whether the call goes on. */
  predicate OnlyCounted<T>(v: View, w: View, r: Await<T>) {
    && w == v.(failures := v.failures + 1, firstFailure := w.firstFailure, stage := w.stage, phase := w.phase)
    && RetriesStand(v, w, r)
  }

  /** After a failure the call goes on, or no retry is left, or it was cut off in its sleep. */
  predicate RetriesStand<T>(v: View, w: View, r: Await<T>) {
    match r
    case Done(_) => w.phase == v.phase && Running(w)
    case Failed(_) => w.phase == v.phase && w.stage == Spent
    case Dropped => w.phase == Idle && w.stage.Resting?
  }

  lemma CountedChanges<T>(ids: Ids, lost: History, h: History, r: Await<T>)
    requires Counted(lost, h, r) && Legal(ids, h)
    ensures Continues(lost, h) && (r.Dropped? ==> CutOff(h))
    ensures OnlyCounted(ViewOf(lost), ViewOf(h), r)
  {
    LegalIsCoherent(ids, h);
    assert Continues(lost, h.past);
  }

  ghost predicate LostNow(ids: Ids, lost: History, delay: nat) {
    Legal(ids, lost) && ViewOf(lost).phase != Idle && ViewOf(lost).stage == Hit(delay)
  }

  lemma FailureIsLegal(ids: Ids, lost: History, now: nat, delay: nat)
    requires LostNow(ids, lost, delay)
    ensures var counted := After(lost, Failure(now));
      Legal(ids, counted) && ViewOf(counted) == AfterFailure(ViewOf(lost), now, delay)
  {
  }

  lemma RetryStands(ids: Ids, lost: History, now: nat, delay: nat, h: History, r: Await<()>)
    requires LostNow(ids, lost, delay)
    requires var v := ViewOf(lost);
      Retries(v.policy, lost, now, delay, v.failures + 1, FirstFailure(v, now), h, r)
    ensures Legal(ids, h) && ViewOf(h).firstFailure == Some(FirstFailure(ViewOf(lost), now))
    ensures r.Done? ==> ViewOf(h).stage == Going && h.event.Slept? && h.event.duration == delay
    ensures r.Failed? ==> ViewOf(h).stage == Spent && r.error == RetriesExhausted(ViewOf(h).failures)
  {
    FailureIsLegal(ids, lost, now, delay);
    if h != After(lost, Failure(now)) {
      assert ViewOf(h) == Advance(ViewOf(h.past), h.event);
    }
  }

  /** What the retry policy does about a loss is legal, and it is counted. */
  lemma RetryIsLegal(ids: Ids, lost: History, now: nat, delay: nat, h: History, r: Await<()>)
    requires LostNow(ids, lost, delay)
    requires var v := ViewOf(lost);
      Retries(v.policy, lost, now, delay, v.failures + 1, FirstFailure(v, now), h, r)
    ensures Legal(ids, h) && Counted(lost, h, r) && (r.Dropped? ==> CutOff(h))
    ensures OnlyCounted(ViewOf(lost), ViewOf(h), r)
    ensures ViewOf(h).firstFailure == Some(FirstFailure(ViewOf(lost), now))
  {
    RetryStands(ids, lost, now, delay, h, r);
    CountedChanges(ids, lost, h, r);
  }

  /** What one connection attempt did: exactly what the world let it. */
  predicate Attempted(kind: ConnectionKind, past: History, h: History, tick: Tick, r: Await<bool>) {
    if tick.dropped then r == Dropped && h == After(past, Stopped)
    else if tick.connect == Connected then r == Done(true) && h == After(past, Opened)
    else if FatalConnect(kind, tick.connect).Some? then
      r == Failed(FatalConnect(kind, tick.connect).value) && h == After(past, Refused(tick.connect))
    else Counted(After(past, Unopened(tick.connect)), h, r) && (r.Done? ==> !r.value)
  }

  /** An attempt changes nothing but the socket, the failures and whether the call goes on. */
  predicate OnlyAttempted(v: View, w: View) {
    w == v.(failures := w.failures, firstFailure := w.firstFailure, stage := w.stage, socket := w.socket,
            phase := w.phase)
  }

  /** What trying to connect comes to: a new socket, or none yet, or the end of the call. */
  predicate Establishes(v: View, w: View, r: Await<bool>) {
    OnlyAttempted(v, w) && match r
      case Done(true) => CallGoesOn(v, w) && w.socket == Open([], false, false)
      case Done(false) => CallGoesOn(v, w) && w.socket.Closed?
      case _ => AtRest(w)
  }

  predicate CallGoesOn(v: View, w: View) {
    Running(w) && w.phase == v.phase && w.failures >= v.failures
  }

  lemma AttemptChanges(kind: ConnectionKind, ids: Ids, past: History, h: History, tick: Tick, r: Await<bool>)
    requires Attempted(kind, past, h, tick, r) && Legal(ids, h)
    requires Looping(ViewOf(past)) && ViewOf(past).socket.Closed?
    ensures Continues(past, h) && Establishes(ViewOf(past), ViewOf(h), r)
    ensures r.Failed? ==> CallFails(kind, ids, h, r.error)
  {
    if !tick.dropped && tick.connect != Connected && FatalConnect(kind, tick.connect) == None {
      var lost := After(past, Unopened(tick.connect));
      CountedChanges(ids, lost, h, r);
      ContinuesTransitive(past, lost, h);
    }
  }

  lemma EstablishesAfter(u: View, v: View, w: View, r: Await<bool>)
    requires Establishes(u, v, Done(false)) && Establishes(v, w, r)
    ensures Establishes(u, w, r)
  {
  }

  /** What a write of `frame` changes: it is on the socket, or it was cut short, or the socket
      broke and that is counted. */
  predicate WriteChanges(v: View, w: View, frame: OutgoingFrame, r: Await<bool>) {
    || (r == Done(true) && w == AfterWrite(v, frame))
    || (r == Dropped && w == AfterCut(v, frame))
    || (&& r != Done(true) && RetriesStand(v, w, r)
        && w == v.(socket := Closed, owesAck := false, failures := v.failures + 1, firstFailure := w.firstFailure,
                   stage := w.stage, phase := w.phase))
  }

  /** What a write of `frame` did, and that it did nothing else. */
  ghost predicate Written(past: History, h: History, frame: OutgoingFrame, r: Await<bool>) {
    && Continues(past, h) && WriteChanges(ViewOf(past), ViewOf(h), frame, r)
    && (r == Done(true) ==> h == After(past, Wrote(frame)))
    && (r != Done(true) ==> h == After(past, CutShort(frame)) || Counted(After(past, WriteBroke(frame)), h, r))
    && (r.Failed? ==> GivesUp(h, r.error)) && (r.Dropped? ==> CutOff(h))
  }

  lemma WriteEnds(past: History, frame: OutgoingFrame)
    ensures Written(past, After(past, Wrote(frame)), frame, Done(true))
    ensures Written(past, After(past, CutShort(frame)), frame, Dropped)
  {
  }

  lemma BreakEnds(ids: Ids, past: History, h: History, frame: OutgoingFrame, r: Await<bool>)
    requires Legal(ids, h) && Counted(After(past, WriteBroke(frame)), h, r) && r != Done(true)
    ensures Written(past, h, frame, r)
  {
    CountedChanges(ids, After(past, WriteBroke(frame)), h, r);
    ContinuesTransitive(past, After(past, WriteBroke(frame)), h);
  }

  /** What a write leaves of the messages: it can only mark its own as sent. */
  lemma WriteMarks(v: View, w: View, frame: OutgoingFrame, r: Await<bool>)
    requires WriteChanges(v, w, frame, r)
    ensures w.requestText == v.requestText && w.completionText == v.completionText
    ensures w.accepted == v.accepted && w.response == v.response
    ensures w.requestSent == (v.requestSent || (r == Done(true) && IsSend(frame, RequestMessage)))
    ensures w.completionSent == (v.completionSent || (r == Done(true) && IsSend(frame, CompletionMessage)))
  {
  }

  /** An acknowledgement leaves an exchange at rest. */
  lemma AckRests(ids: Ids, v: View, w: View, r: Await<bool>)
    requires WriteChanges(v, w, Acknowledge(ids, ResponseMessage), r)
    requires Coherent(ids, v) && Running(v) && Furnished(v) && v.socket.Open?
    requires Due(ids, v) == Some(Acknowledge(ids, ResponseMessage))
    ensures AtRest(w) && (r.Done? ==> Looping(w) && w.phase == v.phase)
  {
  }

  /** A new connection has its opening frame and nothing else. */
  predicate Fresh(ids: Ids, v: View) {
    && v.socket.Open? && |v.socket.written| == 1 && Opening(ids, v) == Some(v.socket.written[0])
    && !v.socket.openingCut && !v.socket.replayCut
  }

  /** What connecting leaves of the exchange as it was. */
  predicate SameButSocket(v: View, w: View) {
    w == v.(failures := w.failures, firstFailure := w.firstFailure, stage := w.stage, socket := w.socket,
            requestSent := w.requestSent, phase := w.phase, openingCut := w.openingCut)
  }

  /** What connecting comes to: nothing where there was a socket, a new socket with its opening
      frame, a broken write that was counted, or the end of the call. */
  predicate Connects(ids: Ids, v: View, w: View, r: Await<Option<bool>>) {
    SameButSocket(v, w) && match r
      case Done(Some(false)) => w == v && Running(w)
      case Done(Some(true)) => CallGoesOn(v, w) && w.openingCut == v.openingCut && Fresh(ids, w)
      case Done(None) =>
        && CallGoesOn(v, w) && w.openingCut == v.openingCut
        && Looping(w) && w.socket.Closed? && w.failures > v.failures
      case _ => AtRest(w)
  }

  lemma ConnectsAfterAttempt(ids: Ids, u: View, v: View, w: View, r: Await<Option<bool>>)
    requires Establishes(u, v, Done(true)) && Connects(ids, v, w, r) && r != Done(Some(false))
    ensures Connects(ids, u, w, r)
  {
  }

  /** The result of connecting, given whether the opening frame was written. */
  function AsConnection(sent: Await<bool>): Await<Option<bool>> {
    match sent
    case Done(written) => Done(if written then Some(true) else None)
    case Failed(error) => Failed(error)
    case Dropped => Dropped
  }

  /** The first write on a new connection leaves it with its opening frame, or an exchange at rest. */
  lemma OpeningRests(ids: Ids, v: View, w: View, frame: OutgoingFrame, r: Await<bool>)
    requires Coherent(ids, v) && Running(v) && !v.owesAck && v.socket == Open([], false, false)
    requires Opening(ids, v) == Some(frame) && WriteChanges(v, w, frame, r)
    ensures Connects(ids, v, w, AsConnection(r))
  {
  }

  /** A completion leaves an exchange at rest. */
  lemma CompletionRests(ids: Ids, v: View, w: View, r: Await<bool>)
    requires Coherent(ids, v) && Running(v) && v.socket.Open? && Due(ids, v) == v.completionText != None
    requires v.socket.written != [] || v.socket.openingCut
    requires OwesCompletion(v) && !v.owesAck && WriteChanges(v, w, v.completionText.value, r)
    ensures AtRest(w) && (r.Done? ==> Looping(w) && w.phase == v.phase && w.accepted)
    ensures r == Done(true) ==> w.completionSent && Listening(ids, w) && w.failures == v.failures
  {
  }

  /** A handoff can begin wherever an exchange with a request is at rest. */
  lemma HandOffBegins(ids: Ids, h: History, text: OutgoingFrame, policy: RetryPolicy)
    requires Legal(ids, h) && AtRest(ViewOf(h)) && policy.maximumFailures > 0
    requires ViewOf(h).requestText.Some? && ViewOf(h).completionText in {None, Some(text)}
    requires IsSend(text, CompletionMessage) && text.ids == ids
    ensures var v, begun := ViewOf(h), After(h, Began(HandOff(text), policy));
      && Legal(ids, begun) && Extends(h, begun) && Looping(ViewOf(begun))
      && ViewOf(begun) == v.(policy := policy, failures := 0, firstFailure := None, stage := Going, owesAck := false,
                             phase := Completing, completionText := Some(text))
  {
    LegalIsCoherent(ids, h);
  }

  /** What listening did: a frame was heard, or the socket was given up and that is counted,
      or the exchange ended there. Pings in between only reset the failures. */
  ghost predicate Heard(past: History, h: History, r: Await<Option<IncomingFrame>>) {
    Continues(past, h) && HeardFrom(ViewOf(past), h, r)
  }

  predicate OnlyFailures(v: View, w: View) {
    w == v.(failures := w.failures, firstFailure := w.firstFailure)
  }

  predicate HeardFrom(v: View, h: History, r: Await<Option<IncomingFrame>>) {
    var w := ViewOf(h);
    match r
    case Done(Some(frame)) =>
      h.After? && h.event == Got(frame) && w == AfterFrame(v, frame) && OnlyFailures(v, ViewOf(h.past))
    case Done(None) =>
      w == v.(socket := Closed, failures := w.failures, firstFailure := w.firstFailure) && Running(w)
    case _ =>
      && w == v.(failures := w.failures, firstFailure := w.firstFailure, stage := w.stage, socket := w.socket,
                 phase := w.phase)
      && w.socket in {Closed, v.socket} && Between(w) && (r.Dropped? ==> CutOff(h))
  }

  lemma LossIsHeard(ids: Ids, lost: History, h: History, r: Await<Option<IncomingFrame>>)
    requires Legal(ids, h) && Legal(ids, lost) && lost.After? && lost.event.Lost?
    requires Counted(lost, h, r) && (r.Done? ==> r.value == None)
    ensures Heard(lost.past, h, r)
  {
    CountedChanges(ids, lost, h, r);
    ContinuesTransitive(lost.past, lost, h);
    LegalIsCoherent(ids, h);
    LegalIsCoherent(ids, lost.past);
  }

  lemma HeardFromEither(v: View, u: View, h: History, r: Await<Option<IncomingFrame>>)
    requires OnlyFailures(v, u) && HeardFrom(u, h, r)
    ensures HeardFrom(v, h, r)
  {
  }

  lemma HeardAfterPings(start: History, before: History, h: History, r: Await<Option<IncomingFrame>>)
    requires PingsSince(start, before) && Heard(before, h, r)
    ensures Heard(start, h, r)
  {
    ContinuesTransitive(start, before, h);
    HeardFromEither(ViewOf(start), ViewOf(before), h, r);
  }

  /** A history grown by nothing but pings and pongs. */
  ghost predicate PingsSince(start: History, h: History) {
    Continues(start, h) && OnlyFailures(ViewOf(start), ViewOf(h))
  }

  lemma AliveChangesNothing(ids: Ids, start: History, h: History)
    requires h.After? && h.event == Alive && PingsSince(start, h.past)
    requires Running(ViewOf(h.past)) && Listening(ids, ViewOf(h.past))
    ensures PingsSince(start, h) && ViewOf(h) == ViewOf(h.past).(failures := 0, firstFailure := None)
    ensures Running(ViewOf(h)) && Listening(ids, ViewOf(h))
  {
  }

  /** A look at whether it was its timeout that cut a handoff off changes nothing about it. */
  lemma PollKeepsTried(kind: ConnectionKind, ids: Ids, policy: RetryPolicy, h: History, dropped: bool)
    requires CutOff(h) && Tried(kind, ids, policy, h)
    ensures Tried(kind, ids, policy, After(h, Polled(dropped)))
  {
  }

  lemma NoTimeoutOfItsOwn(kind: ConnectionKind, ids: Ids, h: History)
    ensures !CallFails(kind, ids, h, CompletionTimedOut)
  {
  }

  lemma CallExtends(past: History, begun: History, h: History)
    requires begun.After? && begun.past == past && Continues(begun, h)
    ensures Extends(past, h) && ViewOf(h).policy == ViewOf(begun).policy
    ensures begun.event.Began? ==> LastCall(h) == past
  {
    ContinuesUnderPolicy(begun, h);
    ExtendsTransitive(past, begun, h);
  }

  class RelayExchange {
    const ids: Ids
    const kind: ConnectionKind
    var connected: bool
    var request: Option<OutgoingMessage>
    var completion: Option<OutgoingMessage>

    constructor (ids: Ids, kind: ConnectionKind, ghost world: World)
      modifies world`history, world`ids, world`kind, world`start
      ensures this.ids == ids && this.kind == kind
      ensures world.start == Moment(world.at, world.clock)
      ensures Valid(world) && world.history == Start && request == None && completion == None && !connected
    {
      this.ids := ids;
      this.kind := kind;
      connected := false;
      request := None;
      completion := None;
      new;
      world.Renew(ids, kind);
    }

    /** The fields say of the exchange what its history says. */
    ghost predicate Matches(h: History)
      reads this
    {
      var v := ViewOf(h);
      && connected == v.socket.Open?
      && request == (if v.requestText == None then None
                     else Some(OutgoingMessage(v.requestText.value, v.requestSent, v.accepted)))
      && completion == (if v.completionText == None then None
                        else Some(OutgoingMessage(v.completionText.value, v.completionSent, false)))
    }

    /** The record is legal, and it is what the world did. */
    ghost predicate Kept(world: World)
      reads world
    {
      Legal(ids, world.history) && world.Serves(ids, kind)
    }

    ghost predicate Faithful(world: World)
      reads this, world
    {
      Kept(world) && Matches(world.history)
    }

    ghost predicate Valid(world: World)
      reads this, world
    {
      Faithful(world) && AtRest(ViewOf(world.history))
    }

    ghost predicate Counts(retry: RetryState, h: History)
      reads retry
    {
      && retry.failures == ViewOf(h).failures
      && retry.firstFailure == ViewOf(h).firstFailure
      && retry.policy == ViewOf(h).policy
    }

    /** A client with this history may listen. */
    ghost predicate Listens(retry: RetryState, h: History)
      reads this, retry
    {
      Matches(h) && Counts(retry, h) && Running(ViewOf(h)) && Listening(ids, ViewOf(h))
    }

    ghost predicate CanListen(retry: RetryState, world: World)
      reads this, retry, world
    {
      Kept(world) && Listens(retry, world.history)
    }

    /** A listening client has just been given an arrival. */
    ghost predicate Given(arrival: Arrival, retry: RetryState, world: World)
      reads this, retry, world
    {
      && Kept(world) && world.history.After? && world.history.event == EventOf(ids, arrival)
      && Listens(retry, world.history.past)
    }

    predicate RequestWasSent()
      reads this
    {
      request.Some? && request.value.sent
    }

    /** Counts what was just lost as a failure of this call. */
    method Fail(delay: nat, retry: RetryState, world: World) returns (r: Await<()>)
      requires Kept(world) && Counts(retry, world.history)
      requires ViewOf(world.history).phase != Idle && ViewOf(world.history).stage == Hit(delay)
      modifies retry, world`at, world`clock, world`history
      ensures Kept(world) && Counts(retry, world.history) && world.at >= old(world.at)
      ensures Counted(old(world.history), world.history, r)
      ensures OnlyCounted(ViewOf(old(world.history)), ViewOf(world.history), r)
      ensures retry.failures == old(retry.failures) + 1
      ensures r.Failed? ==>
        r.error == RetriesExhausted(retry.failures) && retry.IsExhausted(world.clock)
      ensures r.Dropped? ==> world.CutOffSince(old(world.at))
    {
      ghost var lost, now := world.history, world.clock;
      r := retry.Failed(delay, world);
      RetryIsLegal(ids, lost, now, delay, world.history, r);
      assert Counts(retry, world.history) && (r.Dropped? ==> Cut(world.history));
    }

    /** A look at whether this is cancelled, between calls. */
    method Poll(world: World) returns (dropped: bool)
      requires Valid(world)
      modifies world`at, world`clock, world`history
      ensures Valid(world) && world.at == old(world.at) + 1 && dropped == world.script(old(world.at)).dropped
      ensures world.history == After(old(world.history), Polled(dropped))
      ensures Extends(old(world.history), world.history)
      ensures dropped ==> world.DroppedSince(old(world.at))
    {
      dropped := world.Poll();
      assert Extends(old(world.history), world.history.past);
    }

    // ---- Sending --------------------------------------------------------

    /** The one write that is due. */
    method Emit(frame: OutgoingFrame, world: World) returns (written: bool, dropped: bool)
      requires Kept(world) && Running(ViewOf(world.history)) && Due(ids, ViewOf(world.history)) == Some(frame)
      modifies world`at, world`clock, world`history
      ensures Kept(world) && Coherent(ids, ViewOf(old(world.history))) && world.at == old(world.at) + 1
      ensures written == world.script(old(world.at)).written && dropped == world.script(old(world.at)).dropped
      ensures world.history == After(old(world.history),
        if dropped then CutShort(frame) else if written then Wrote(frame) else WriteBroke(frame))
      ensures dropped ==> world.CutOffSince(old(world.at))
    {
      LegalIsCoherent(ids, world.history);
      written, dropped := world.Write(frame);
    }

    method SendText(frame: OutgoingFrame, retry: RetryState, world: World) returns (r: Await<bool>)
      requires Kept(world) && Counts(retry, world.history) && connected
      requires Running(ViewOf(world.history)) && Due(ids, ViewOf(world.history)) == Some(frame)
      modifies this`connected, retry, world`at, world`clock, world`history
      ensures Kept(world) && Counts(retry, world.history)
      ensures connected == ViewOf(world.history).socket.Open?
      ensures Written(old(world.history), world.history, frame, r)
      ensures Sends(old(world.at), r, world)
    {
      WriteEnds(world.history, frame);
      var written, dropped := Emit(frame, world);
      if dropped {
        return Dropped;
      }
      if written {
        return Done(true);
      }
      r := Break(frame, retry, world);
    }

    /** The socket broke under a write, and that is counted. */
    method Break(ghost frame: OutgoingFrame, retry: RetryState, world: World) returns (r: Await<bool>)
      requires Kept(world) && world.history.After? && world.history.event == WriteBroke(frame)
      requires Counts(retry, world.history.past) && Running(ViewOf(world.history.past))
      modifies this`connected, retry, world`at, world`clock, world`history
      ensures Kept(world) && Counts(retry, world.history) && !connected && ViewOf(world.history).socket.Closed?
      ensures Written(old(world.history.past), world.history, frame, r) && r != Done(true)
      ensures world.at >= old(world.at) && (r.Dropped? ==> world.CutOffSince(old(world.at)))
    {
      ghost var past := world.history.past;
      connected := false;
      var counted := Fail(retry.policy.retryDelay, retry, world);
      r := if counted.Done? then Done(false) else counted.PropagateFailure();
      BreakEnds(ids, past, world.history, frame, r);
    }

    /** The write succeeded exactly if the world let it. */
    ghost predicate Sends(from: nat, r: Await<bool>, world: World)
      reads world
    {
      && world.at > from
      && (r.Done? && r.value <==> world.script(from).written && !world.script(from).dropped)
      && (r.Dropped? ==> world.CutOffSince(from))
    }

    method SendRequest(retry: RetryState, world: World) returns (r: Await<bool>)
      requires Faithful(world) && Counts(retry, world.history) && connected && request.Some?
      requires Running(ViewOf(world.history)) && Due(ids, ViewOf(world.history)) == Some(request.value.text)
      modifies this`connected, this`request, retry, world`at, world`clock, world`history
      ensures Faithful(world) && Counts(retry, world.history)
      ensures Written(old(world.history), world.history, old(request.value.text), r)
      ensures Sends(old(world.at), r, world)
    {
      LegalIsCoherent(ids, world.history);
      r := SendText(request.value.text, retry, world);
      WriteMarks(ViewOf(old(world.history)), ViewOf(world.history), request.value.text, r);
      if r.Done? {
        request := Some(request.value.(sent := request.value.sent || r.value));
      }
    }

    method SendCompletion(retry: RetryState, world: World) returns (r: Await<bool>)
      requires Faithful(world) && Counts(retry, world.history) && connected && completion.Some?
      requires Running(ViewOf(world.history)) && Due(ids, ViewOf(world.history)) == Some(completion.value.text)
      modifies this`connected, this`completion, retry, world`at, world`clock, world`history
      ensures Faithful(world) && Counts(retry, world.history)
      ensures Written(old(world.history), world.history, old(completion.value.text), r)
      ensures Sends(old(world.at), r, world)
    {
      LegalIsCoherent(ids, world.history);
      r := SendText(completion.value.text, retry, world);
      WriteMarks(ViewOf(old(world.history)), ViewOf(world.history), completion.value.text, r);
      if r.Done? {
        completion := Some(completion.value.(sent := completion.value.sent || r.value));
      }
    }

    method SendResume(retry: RetryState, world: World) returns (r: Await<bool>)
      requires Faithful(world) && Counts(retry, world.history) && connected
      requires Running(ViewOf(world.history)) && Due(ids, ViewOf(world.history)) == Some(Resume(ids))
      modifies this`connected, retry, world`at, world`clock, world`history
      ensures Faithful(world) && Counts(retry, world.history)
      ensures Written(old(world.history), world.history, Resume(ids), r)
      ensures Sends(old(world.at), r, world)
    {
      r := SendText(Resume(ids), retry, world);
      WriteMarks(ViewOf(old(world.history)), ViewOf(world.history), Resume(ids), r);
    }

    method SendAck(retry: RetryState, world: World) returns (r: Await<bool>)
      requires Faithful(world) && Counts(retry, world.history) && connected
      requires Running(ViewOf(world.history)) && Furnished(ViewOf(world.history))
      requires Due(ids, ViewOf(world.history)) == Some(Acknowledge(ids, ResponseMessage))
      modifies this`connected, retry, world`at, world`clock, world`history
      ensures Valid(world) && Counts(retry, world.history)
      ensures Written(old(world.history), world.history, Acknowledge(ids, ResponseMessage), r)
      ensures r.Done? ==>
        Looping(ViewOf(world.history)) && ViewOf(world.history).phase == ViewOf(old(world.history)).phase
      ensures world.history.After? && !world.history.event.Got?
      ensures Sends(old(world.at), r, world)
    {
      LegalIsCoherent(ids, world.history);
      r := SendText(Acknowledge(ids, ResponseMessage), retry, world);
      WriteMarks(ViewOf(old(world.history)), ViewOf(world.history), Acknowledge(ids, ResponseMessage), r);
      AckRests(ids, ViewOf(old(world.history)), ViewOf(world.history), r);
    }

    // ---- Connecting -----------------------------------------------------

    /** Tries to open a socket. */
    method Dial(world: World) returns (outcome: ConnectOutcome, dropped: bool)
      requires Kept(world) && Running(ViewOf(world.history))
      requires ViewOf(world.history).socket.Closed?
      modifies world`at, world`clock, world`history
      ensures Kept(world) && world.at == old(world.at) + 1
      ensures outcome == world.script(old(world.at)).connect && dropped == world.script(old(world.at)).dropped
      ensures world.history == After(old(world.history), if dropped then Stopped else AttemptOf(kind, outcome))
      ensures dropped ==> world.CutOffSince(old(world.at))
    {
      AttemptIsAllowed(ids, ViewOf(world.history), kind, world.script(world.at).connect);
      outcome, dropped := world.Connect(kind);
    }

    /** One connection attempt. The result is whether it succeeded. */
    method Attempt(retry: RetryState, world: World) returns (r: Await<bool>)
      requires Faithful(world) && Counts(retry, world.history) && !connected && Looping(ViewOf(world.history))
      modifies this`connected, retry, world`at, world`clock, world`history
      ensures Faithful(world) && Counts(retry, world.history)
      ensures Attempted(kind, old(world.history), world.history, world.script(old(world.at)), r)
      ensures connected <==> r.Done? && r.value
      ensures r.Done? ==> retry.failures >= old(retry.failures)
      ensures r.Done? && !r.value ==> retry.failures > old(retry.failures)
      ensures world.at > old(world.at) && (r.Dropped? ==> world.CutOffSince(old(world.at)))
    {
      var outcome, dropped := Dial(world);
      if dropped {
        return Dropped;
      }
      if outcome == Connected {
        connected := true;
        return Done(true);
      }
      r := Unconnected(outcome, retry, world);
    }

    /** An attempt that failed for good, or is counted. */
    method Unconnected(outcome: ConnectOutcome, retry: RetryState, world: World) returns (r: Await<bool>)
      requires outcome != Connected && Kept(world)
      requires world.history.After? && world.history.event == AttemptOf(kind, outcome)
      requires Counts(retry, world.history.past) && Running(ViewOf(world.history.past))
      modifies retry, world`at, world`clock, world`history
      ensures Kept(world) && Counts(retry, world.history)
      ensures r.Done? ==> !r.value && retry.failures > old(retry.failures)
      ensures if FatalConnect(kind, outcome).Some?
              then r == Failed(FatalConnect(kind, outcome).value) && world.history == old(world.history)
              else Counted(old(world.history), world.history, r)
                   && OnlyCounted(ViewOf(old(world.history)), ViewOf(world.history), r)
      ensures r.Failed? && FatalConnect(kind, outcome) == None ==>
        r.error == RetriesExhausted(retry.failures) && retry.IsExhausted(world.clock)
      ensures world.at >= old(world.at) && (r.Dropped? ==> world.CutOffSince(old(world.at)))
    {
      var fatal := FatalConnect(kind, outcome);
      if fatal.Some? {
        return Failed(fatal.value);
      }
      var _ :- Fail(retry.policy.retryDelay, retry, world);
      return Done(false);
    }

    method EnsureConnected(retry: RetryState, world: World) returns (r: Await<bool>)
      requires Valid(world) && Counts(retry, world.history) && Looping(ViewOf(world.history))
      modifies this`connected, retry, world`at, world`clock, world`history
      ensures Faithful(world) && Counts(retry, world.history)
      ensures Continues(old(world.history), world.history) && world.at >= old(world.at)
      ensures r == Done(false) ==> old(connected) && world.history == old(world.history)
      ensures r == Done(true) ==> !old(connected) && world.history.After? && world.history.event.Opened?
      ensures r != Done(false) ==> Establishes(ViewOf(old(world.history)), ViewOf(world.history), r)
      ensures r.Failed? && world.history.event.Refused? ==> RefusedFor(kind, world.history.event.outcome, r.error)
      ensures r.Failed? ==> CallFails(kind, ids, world.history, r.error)
      ensures r.Dropped? ==> world.CutOffSince(old(world.at))
    {
      if connected {
        return Done(false);
      }
      ghost var start := world.history;
      ContinuesTransitiveFrom(start);
      var established := false;
      while !established
        invariant Faithful(world) && Counts(retry, world.history)
        invariant connected == established && world.at >= old(world.at)
        invariant Continues(start, world.history)
        invariant Establishes(ViewOf(start), ViewOf(world.history), Done(established))
        invariant !established ==> Looping(ViewOf(world.history))
        invariant established ==> world.history.After? && world.history.event.Opened?
        decreases !established, retry.policy.maximumFailures - retry.failures
      {
        ghost var past, tick := world.history, world.script(world.at);
        var attempt := Attempt(retry, world);
        AttemptChanges(kind, ids, past, world.history, tick, attempt);
        EstablishesAfter(ViewOf(start), ViewOf(past), ViewOf(world.history), attempt);
        AttemptMeans(kind, tick.connect);
        established :- attempt;
      }
      return Done(true);
    }

    /** The first frame of a new connection. The result is whether it was written. */
    method OpenWith(retry: RetryState, world: World) returns (r: Await<bool>)
      requires Faithful(world) && Counts(retry, world.history) && connected
      requires Running(ViewOf(world.history)) && ViewOf(world.history).socket == Open([], false, false)
      requires !ViewOf(world.history).owesAck
      modifies this`connected, this`request, retry, world`at, world`clock, world`history
      ensures Faithful(world) && Counts(retry, world.history)
      ensures Continues(old(world.history), world.history)
      ensures Connects(ids, ViewOf(old(world.history)), ViewOf(world.history), AsConnection(r))
      ensures r.Done? && !r.value ==> world.history.After? && world.history.event.Slept?
      ensures SameText(old(request), request)
      ensures r.Failed? ==> CallFails(kind, ids, world.history, r.error)
      ensures Sends(old(world.at), r, world)
    {
      LegalIsCoherent(ids, world.history);
      ghost var v := ViewOf(world.history);
      if request.value.acknowledged {
        r := SendResume(retry, world);
      } else {
        r := SendRequest(retry, world);
      }
      OpeningRests(ids, v, ViewOf(world.history), Opening(ids, v).value, r);
    }

    /** Connects if needed and writes the opening frame of a new connection. The result is
        whether it reconnected, or None if that write failed. */
    method Connect(retry: RetryState, world: World) returns (r: Await<Option<bool>>)
      requires Valid(world) && Counts(retry, world.history) && Looping(ViewOf(world.history))
      modifies this`connected, this`request, retry, world`at, world`clock, world`history
      ensures Faithful(world) && Counts(retry, world.history)
      ensures Continues(old(world.history), world.history) && world.at >= old(world.at)
      ensures Connects(ids, ViewOf(old(world.history)), ViewOf(world.history), r)
      ensures r == Done(Some(false)) ==> old(connected) && world.history == old(world.history)
      ensures r == Done(Some(true)) ==> !old(connected)
      ensures r == Done(None) ==>
        world.history.After? && world.history.event.Slept? && world.at > old(world.at)
      ensures SameText(old(request), request)
      ensures r.Failed? ==> CallFails(kind, ids, world.history, r.error)
      ensures r.Dropped? ==> world.CutOffSince(old(world.at))
    {
      ContinuesTransitiveFrom(world.history);
      ghost var before := ViewOf(world.history);
      var reconnected :- EnsureConnected(retry, world);
      if !reconnected {
        return Done(Some(false));
      }
      ghost var attempted := ViewOf(world.history);
      var sent := OpenWith(retry, world);
      r := AsConnection(sent);
      ConnectsAfterAttempt(ids, before, attempted, ViewOf(world.history), r);
    }

    // ---- Receiving ------------------------------------------------------

    /** The socket has been lost, and that is counted. */
    method Disconnect(delay: nat, retry: RetryState, world: World) returns (r: Await<Option<IncomingFrame>>)
      requires Kept(world) && world.history.After? && world.history.event.Lost?
      requires Listens(retry, world.history.past) && delay == DelayAfter(world.history.event.arrival, retry.policy)
      modifies this`connected, retry, world`at, world`clock, world`history
      ensures Faithful(world) && Counts(retry, world.history)
      ensures Heard(old(world.history.past), world.history, r) && !connected
      ensures Counted(old(world.history), world.history, r)
      ensures retry.failures == old(retry.failures) + 1 && world.at >= old(world.at)
      ensures r.Done? ==> r.value == None
      ensures r.Failed? ==>
        r.error == RetriesExhausted(retry.failures) && retry.IsExhausted(world.clock)
      ensures r.Dropped? ==> world.CutOffSince(old(world.at))
    {
      ghost var lost := world.history;
      connected := false;
      var counted := Fail(delay, retry, world);
      r := if counted.Done? then Done(None) else counted.PropagateFailure();
      LossIsHeard(ids, lost, world.history, r);
    }

    /** What an arrival comes to: exactly its fatal error, if it has one; the frame it
        carries; or a failure counted for the socket it cost. */
    ghost predicate ComesTo(arrival: Arrival, given: History, h: History, r: Await<Option<IncomingFrame>>) {
      if Fatal(ids, arrival).Some? then r == Failed(Fatal(ids, arrival).value) && h == given
      else if arrival.Text? && !arrival.frame.Error? then r == Done(Some(arrival.frame)) && h == given
      else Counted(given, h, r) && (r.Done? ==> r.value == None)
    }

    /** A text frame: its own errors end the exchange or ask for another attempt. */
    method Accept(frame: IncomingFrame, retry: RetryState, world: World) returns (r: Await<Option<IncomingFrame>>)
      requires Given(Text(frame), retry, world)
      modifies this`connected, retry, world`at, world`clock, world`history
      ensures Kept(world) && Counts(retry, world.history)
      ensures Heard(old(world.history.past), world.history, r) && world.at >= old(world.at)
      ensures ComesTo(Text(frame), old(world.history), world.history, r)
      ensures if r.Done? && r.value.Some? then Matches(world.history.past) else Faithful(world)
      ensures r.Done? && r.value == None ==> retry.failures > old(retry.failures)
      ensures r.Dropped? ==> world.CutOffSince(old(world.at))
    {
      if !AddressedTo(frame, ids) {
        return Failed(ProtocolViolation);
      }
      match frame
      case Error(_, _, code, text, retryable, retryAfter) =>
        if !retryable {
          return Failed(RelayRejected(code, text));
        }
        r := Disconnect(if retryAfter.Some? then retryAfter.value else 1000, retry, world);
      case Inactive(_, inactiveKind) =>
        return Failed(ExchangeInactive(inactiveKind));
      case _ =>
        retry.Succeeded();
        return Done(Some(frame));
    }

    /** Whatever a socket read yields, other than a ping or pong. */
    method Take(arrival: Arrival, retry: RetryState, world: World) returns (r: Await<Option<IncomingFrame>>)
      requires Given(arrival, retry, world) && !arrival.Control?
      modifies this`connected, retry, world`at, world`clock, world`history
      ensures Kept(world) && Counts(retry, world.history)
      ensures Heard(old(world.history.past), world.history, r) && world.at >= old(world.at)
      ensures ComesTo(arrival, old(world.history), world.history, r)
      ensures if r.Done? && r.value.Some? then Matches(world.history.past) else Faithful(world)
      ensures r.Done? && r.value == None ==> retry.failures > old(retry.failures)
      ensures r.Dropped? ==> world.CutOffSince(old(world.at))
    {
      match arrival
      case Gone =>
        r := Disconnect(retry.policy.retryDelay, retry, world);
      case CloseFrame(code) =>
        if code == 4002 || code == 4003 {
          connected := false;
          return Failed(ClientSuspended(code));
        }
        r := Disconnect(retry.policy.retryDelay, retry, world);
      case Binary =>
        return Failed(ProtocolViolation);
      case Malformed =>
        return Failed(InvalidJson);
      case Text(frame) =>
        r := Accept(frame, retry, world);
    }

    /** Since `start` there were only pings and pongs, and now there is an arrival, unless the
        future was dropped. */
    ghost predicate Reading(start: History, arrival: Arrival, dropped: bool, retry: RetryState, world: World)
      reads this, retry, world
    {
      if dropped then
        && Faithful(world) && Counts(retry, world.history) && world.history.After? && world.history.event == Stopped
        && PingsSince(start, world.history.past) && ViewOf(world.history.past).stage == Going
      else
        && Given(arrival, retry, world) && PingsSince(start, world.history.past)
        && world.at > 0 && arrival == Yielded(world.script, world.quiet, world.at - 1)
    }

    /** One read while listening. */
    method Look(ghost start: History, retry: RetryState, world: World) returns (arrival: Arrival, dropped: bool)
      requires CanListen(retry, world) && PingsSince(start, world.history)
      modifies world`at, world`clock, world`history
      ensures world.at == old(world.at) + 1 && Reading(start, arrival, dropped, retry, world)
      ensures dropped ==> world.CutOffSince(old(world.at))
    {
      ArrivalIsAllowed(ids, ViewOf(world.history), Yielded(world.script, world.quiet, world.at));
      arrival, dropped := world.Arrive(ids);
    }

    /** A ping or pong shows that the relay is alive, and nothing else. */
    method Ping(ghost start: History, retry: RetryState, ghost world: World)
      requires Reading(start, Control, false, retry, world)
      modifies retry
      ensures CanListen(retry, world) && PingsSince(start, world.history)
    {
      AliveChangesNothing(ids, start, world.history);
      retry.Succeeded();
    }

    /** Reads past pings and pongs. */
    method Read(retry: RetryState, world: World) returns (arrival: Arrival, dropped: bool)
      requires CanListen(retry, world)
      modifies retry, world`at, world`clock, world`history
      ensures world.at > old(world.at) && Reading(old(world.history), arrival, dropped, retry, world)
      ensures dropped || !arrival.Control?
      ensures old(world.at) < world.quiet || (retry.failures == old(retry.failures) && (dropped || !arrival.Text?))
      ensures dropped ==> world.CutOffSince(old(world.at))
    {
      ghost var start := world.history;
      arrival, dropped := Look(start, retry, world);
      while !dropped && arrival == Control
        invariant world.at > old(world.at) && Reading(start, arrival, dropped, retry, world)
        invariant old(world.at) < world.quiet || retry.failures == old(retry.failures)
        invariant dropped ==> world.CutOffSince(old(world.at))
        decreases world.quiet - world.at
      {
        Ping(start, retry, world);
        arrival, dropped := Look(start, retry, world);
      }
    }

    /** Waits for a frame of this exchange. The result is None after a disconnect. */
    method Receive(retry: RetryState, world: World) returns (r: Await<Option<IncomingFrame>>)
      requires CanListen(retry, world)
      modifies this`connected, retry, world`at, world`clock, world`history
      ensures Kept(world) && Counts(retry, world.history) && Heard(old(world.history), world.history, r)
      ensures if r.Done? && r.value.Some?
              then Matches(world.history.past) && Fatal(ids, Text(r.value.value)) == None
                   && old(world.at) < world.quiet
              else Faithful(world)
      ensures r.Done? && r.value == None ==> Advances(retry, world)
      ensures r.Failed? ==> CallFails(kind, ids, world.history, r.error)
      ensures world.at > old(world.at) && (r.Dropped? ==> world.CutOffSince(old(world.at)))
    {
      ghost var start := world.history;
      var arrival, dropped := Read(retry, world);
      if dropped {
        return Dropped;
      }
      ghost var before := world.history.past;
      r := Take(arrival, retry, world);
      HeardAfterPings(start, before, world.history, r);
    }

    // ---- The request ----------------------------------------------------

    /** The frame just heard shows that the relay has the request. */
    method ConfirmRequest(ghost world: World)
      requires Kept(world) && world.history.After? && world.history.event.Got? && Matches(world.history.past)
      requires request.Some? && ConfirmsRequest(ViewOf(world.history.past).phase, world.history.event.incoming)
      modifies this`request
      ensures Faithful(world) && request == Some(old(request).value.(acknowledged := true))
    {
      request := Some(request.value.(acknowledged := true));
    }

    /** A frame has just been heard while requesting. */
    ghost predicate Hears(frame: IncomingFrame, response: Option<Value>, retry: RetryState, world: World)
      reads this, retry, world
    {
      && Kept(world) && Counts(retry, world.history) && connected && request.Some?
      && world.history.After? && world.history.event == Got(frame) && Matches(world.history.past)
      && ViewOf(world.history.past).phase == Requesting && ViewOf(world.history.past).response == response
      && Furnished(ViewOf(world.history)) && Running(ViewOf(world.history))
    }

    /** The call goes on with the first response heard so far, or ends with a result. */
    ghost predicate GoesOn(r: Option<Await<Response>>, kept: Option<Value>, retry: RetryState, world: World)
      reads this, retry, world
    {
      && Valid(world) && Counts(retry, world.history)
      && match r
         case None =>
           && Looping(ViewOf(world.history)) && ViewOf(world.history).phase == Requesting
           && ViewOf(world.history).response == kept && !ResponseSettled(ids, world.history)
         case Some(finished) => Answered(kind, ids, world.history, finished)
    }

    /** Acknowledges the response just heard. */
    method AckResponse(response: Option<Value>, ghost payload: Value, retry: RetryState, world: World)
      returns (sent: Await<bool>)
      requires Hears(Message(ids, ResponseMessage, payload), response, retry, world)
      modifies this`connected, this`request, retry, world`at, world`clock, world`history
      ensures Valid(world) && Counts(retry, world.history) && Continues(old(world.history), world.history)
      ensures SameText(old(request), request)
      ensures ViewOf(world.history).response == ViewOf(old(world.history)).response
      ensures ViewOf(world.history).accepted
      ensures sent.Done? ==>
        && Looping(ViewOf(world.history)) && ViewOf(world.history).phase == Requesting
        && (sent.value <==> ResponseSettled(ids, world.history))
      ensures sent.Failed? ==> CallFails(kind, ids, world.history, sent.error)
      ensures world.at >= old(world.at) && (sent.Dropped? ==> world.CutOffSince(old(world.at)))
    {
      LegalIsCoherent(ids, world.history.past);
      ConfirmRequest(world);
      sent := SendAck(retry, world);
      assert Continues(old(world.history), world.history.past);
    }

    /** The first response heard is kept, and each is acknowledged. */
    method ReactToResponse(payload: Value, response: Option<Value>, retry: RetryState, world: World)
      returns (r: Option<Await<Response>>, kept: Option<Value>)
      requires Hears(Message(ids, ResponseMessage, payload), response, retry, world)
      modifies this`connected, this`request, retry, world`at, world`clock, world`history
      ensures GoesOn(r, kept, retry, world) && Continues(old(world.history), world.history)
      ensures SameText(old(request), request)
      ensures world.at >= old(world.at) && (r == Some(Dropped) ==> world.CutOffSince(old(world.at)))
    {
      kept := if response == None then Some(payload) else response;
      assert ViewOf(world.history).response == kept;
      var sent := AckResponse(response, payload, retry, world);
      r := if sent.Done? then None else Some(sent.PropagateFailure());
      if sent == Done(true) {
        var decoded := Decode(kept, world.history);
        r := Some(decoded);
      }
    }

    /** A snapshot can confirm the request, settle the response, or end the exchange. */
    method ReactToState(frame: IncomingFrame, response: Option<Value>, retry: RetryState, ghost world: World)
      returns (r: Option<Await<Response>>)
      requires frame.State? && Hears(frame, response, retry, world)
      modifies this`request
      ensures GoesOn(r, response, retry, world) && SameText(old(request), request)
      ensures r == None ==> frame.exchange !in {Settled, Expired}
      ensures r != Some(Dropped)
    {
      LegalIsCoherent(ids, world.history.past);
      LegalIsCoherent(ids, world.history);
      if frame.request in {Accepted, Delivered} {
        ConfirmRequest(world);
      }
      if frame.response == Delivered {
        var decoded := Decode(response, world.history);
        return Some(decoded);
      }
      return if frame.exchange in {Settled, Expired} then Some(Failed(MissingResponse)) else None;
    }

    /** The frame just heard, and everything that follows from it while requesting. The
        result is None to go on. */
    method React(frame: IncomingFrame, response: Option<Value>, retry: RetryState, world: World)
      returns (r: Option<Await<Response>>, kept: Option<Value>)
      requires Hears(frame, response, retry, world)
      modifies this`connected, this`request, retry, world`at, world`clock, world`history
      ensures GoesOn(r, kept, retry, world) && Continues(old(world.history), world.history)
      ensures SameText(old(request), request)
      ensures r == None ==> !(frame.State? && frame.exchange in {Settled, Expired})
      ensures world.at >= old(world.at) && (r == Some(Dropped) ==> world.CutOffSince(old(world.at)))
    {
      LegalIsCoherent(ids, world.history.past);
      kept := response;
      match frame
      case Ack(_, kind) =>
        if kind == RequestMessage {
          ConfirmRequest(world);
        }
        return None, kept;
      case Receipt(_, kind) =>
        if kind == RequestMessage {
          ConfirmRequest(world);
        }
        return None, kept;
      case Message(_, kind, payload) =>
        if kind != ResponseMessage {
          return None, kept;
        }
        r, kept := ReactToResponse(payload, response, retry, world);
      case State(_, _, _, _, _) =>
        r := ReactToState(frame, response, retry, world);
      case _ =>
        return None, kept;
    }

    method Decode(response: Option<Value>, ghost h: History) returns (r: Await<Response>)
      requires ViewOf(h).response == response
      ensures match DecodeResponse(response) case Ok(value) => r == Done(value) case Err(error) => r == Failed(error)
      ensures Payloads(h) == [] ==> r == Failed(MissingResponse)
      ensures Payloads(h) != [] ==>
        match r
        case Done(value) => DecodeResponse(Some(Payloads(h)[0])) == Ok(value)
        case Failed(error) => DecodeResponse(Some(Payloads(h)[0])) == Err(error)
        case Dropped => false
    {
      FirstPayloadIsKept(h);
      match DecodeResponse(response)
      case Ok(value) => r := Done(value);
      case Err(error) => r := Failed(error);
    }

    /** A round made progress towards the await from which on the relay is quiet, or towards
        the end of the retries. */
    twostate predicate Advances(retry: RetryState, world: World)
      reads retry, world
    {
      world.at > old(world.at) && (old(world.at) < world.quiet || retry.failures > old(retry.failures))
    }

    /** The state of the request loop, with the first response heard so far. */
    ghost predicate AwaitsResponse(retry: RetryState, response: Option<Value>, world: World)
      reads this, retry, world
    {
      && Valid(world) && Counts(retry, world.history) && request.Some?
      && Looping(ViewOf(world.history)) && ViewOf(world.history).phase == Requesting
      && ViewOf(world.history).response == response
    }

    /** Listens on a connected socket and reacts to what is heard there. */
    method Listen(response: Option<Value>, retry: RetryState, world: World)
      returns (r: Option<Await<Response>>, kept: Option<Value>)
      requires AwaitsResponse(retry, response, world) && CanListen(retry, world)
      modifies this`connected, this`request, retry, world`at, world`clock, world`history
      ensures Valid(world) && Continues(old(world.history), world.history)
      ensures SameText(old(request), request)
      ensures r == None ==> AwaitsResponse(retry, kept, world) && Advances(retry, world)
      ensures r.Some? ==> Answered(kind, ids, world.history, r.value)
      ensures world.at >= old(world.at) && (r == Some(Dropped) ==> world.CutOffSince(old(world.at)))
    {
      ContinuesTransitiveFrom(world.history);
      kept := response;
      var incoming := Receive(retry, world);
      if !incoming.Done? {
        return Some(incoming.PropagateFailure()), kept;
      }
      if incoming.value == None {
        return None, kept;
      }
      r, kept := React(incoming.value.value, response, retry, world);
    }

    /** One round of the request loop. The result is None to go on. */
    method RequestRound(response: Option<Value>, retry: RetryState, world: World)
      returns (r: Option<Await<Response>>, kept: Option<Value>)
      requires AwaitsResponse(retry, response, world)
      modifies this`connected, this`request, retry, world`at, world`clock, world`history
      ensures Valid(world) && Continues(old(world.history), world.history)
      ensures SameText(old(request), request)
      ensures r == None ==> AwaitsResponse(retry, kept, world) && Advances(retry, world)
      ensures r.Some? ==> Answered(kind, ids, world.history, r.value)
      ensures world.at >= old(world.at) && (r == Some(Dropped) ==> world.CutOffSince(old(world.at)))
    {
      ContinuesTransitiveFrom(world.history);
      kept := response;
      var connection := Connect(retry, world);
      if !connection.Done? {
        return Some(connection.PropagateFailure()), kept;
      }
      if connection.value == None {
        return None, kept;
      }
      LegalIsCoherent(ids, world.history);
      r, kept := Listen(response, retry, world);
    }

    /** Fixes the text of the request. */
    method BeginRequest(payload: Payload, size: nat, ghost world: World) returns (r: Await<()>)
      requires Valid(world)
      modifies this`request, world`history
      ensures Valid(world) && Extends(old(world.history), world.history)
      ensures r.Done? <==> old(request) == None && size <= MAXIMUM_FRAME_SIZE
      ensures !r.Done? ==>
        && world.history == old(world.history)
        && r == Failed(if old(request).Some? then ProtocolViolation else FrameTooLarge(size))
      ensures r.Done? ==>
        && request == Some(OutgoingMessage(Send(ids, RequestMessage, payload), false, false))
        && Looping(ViewOf(world.history)) && ViewOf(world.history).phase == Requesting
        && ViewOf(world.history).response == None
        && world.history ==
             After(old(world.history), Began(StartRequest(request.value.text), NORMAL_RETRY_POLICY))
    {
      if request.Some? {
        return Failed(ProtocolViolation);
      }
      var message := NewMessage(Send(ids, RequestMessage, payload), size);
      if message.Err? {
        return Failed(message.error);
      }
      LegalIsCoherent(ids, world.history);
      request := Some(message.value);
      world.Note(Began(StartRequest(message.value.text), NORMAL_RETRY_POLICY));
      return Done(());
    }

    /** Sends the request until the relay has it and waits for the response, all in one call
        under the normal policy. */
    method Request(payload: Payload, size: nat, world: World) returns (r: Await<Response>)
      requires Valid(world)
      modifies this`connected, this`request, world`at, world`clock, world`history
      ensures Valid(world) && Extends(old(world.history), world.history)
      ensures old(request).Some? ==> r == Failed(ProtocolViolation) && world.history == old(world.history)
      ensures old(request).None? && size > MAXIMUM_FRAME_SIZE ==>
        r == Failed(FrameTooLarge(size)) && world.history == old(world.history) && request == None
      ensures old(request).None? && size <= MAXIMUM_FRAME_SIZE ==>
        && Answered(kind, ids, world.history, r) && ViewOf(world.history).policy == NORMAL_RETRY_POLICY
        && Payloads(world.history) == Responses(world.ThisRun(), world.history)
        && request.Some? && request.value.text == Send(ids, RequestMessage, payload)
        && Continues(After(old(world.history), Began(StartRequest(request.value.text), NORMAL_RETRY_POLICY)),
                     world.history)
      ensures world.at >= old(world.at) && (r.Dropped? ==> world.CutOffSince(old(world.at)))
      ensures !r.Dropped? ==> !world.DroppedSince(old(world.at))
    {
      var _ :- BeginRequest(payload, size, world);
      ghost var begun := world.history;
      ContinuesTransitiveFrom(begun);
      var retry := new RetryState(NORMAL_RETRY_POLICY);
      var response: Option<Value> := None;
      while true
        invariant AwaitsResponse(retry, response, world) && Continues(begun, world.history)
        invariant request.value.text == Send(ids, RequestMessage, payload) && world.at >= old(world.at)
        decreases if world.at < world.quiet then world.quiet - world.at else 0,
                  NORMAL_RETRY_POLICY.maximumFailures - retry.failures
      {
        var finished;
        finished, response := RequestRound(response, retry, world);
        if finished.Some? {
          RequestEnds(begun, finished.value, world);
          return finished.value;
        }
      }
    }

    lemma RequestEnds(begun: History, finished: Await<Response>, world: World)
      requires Kept(world) && begun.After? && begun.event.Began? && Continues(begun, world.history)
      requires Answered(kind, ids, world.history, finished) && (finished.Dropped? ==> Cut(world.history))
      ensures Extends(begun.past, world.history) && ViewOf(world.history).policy == ViewOf(begun).policy
      ensures Payloads(world.history) == Responses(world.ThisRun(), world.history)
      ensures !finished.Dropped? ==> !world.DroppedSince(MomentOf(world.ThisRun(), begun.past).at)
    {
      CallEnds(begun, finished.Dropped?, world);
      PayloadsAreDelivered(world.ThisRun(), world.history);
    }

    // ---- The completion -------------------------------------------------

    /** The state of the completion loop. */
    ghost predicate HandsOff(retry: RetryState, world: World)
      reads this, retry, world
    {
      && Valid(world) && Counts(retry, world.history) && request.Some? && completion.Some?
      && Looping(ViewOf(world.history)) && ViewOf(world.history).phase == Completing
    }

    /** The frame just heard, before the request is known to be accepted. */
    method NoteAcceptance(frame: IncomingFrame, retry: RetryState, world: World) returns (r: Await<()>)
      requires Kept(world) && Counts(retry, world.history) && connected && request.Some? && completion.Some?
      requires world.history.After? && world.history.event == Got(frame) && Matches(world.history.past)
      requires ViewOf(world.history.past).phase == Completing && !ViewOf(world.history.past).accepted
      requires Furnished(ViewOf(world.history)) && Running(ViewOf(world.history))
      modifies this`connected, this`request, retry, world`at, world`clock, world`history
      ensures Valid(world) && Continues(old(world.history), world.history) && SameText(old(request), request)
      ensures r.Done? ==> HandsOff(retry, world) && !HandedOff(world.history)
      ensures r.Failed? ==> CallFails(kind, ids, world.history, r.error)
      ensures world.at >= old(world.at) && (r.Dropped? ==> world.CutOffSince(old(world.at)))
    {
      LegalIsCoherent(ids, world.history.past);
      match frame {
        case Ack(_, kind) =>
          if kind == RequestMessage {
            ConfirmRequest(world);
          }
        case Receipt(_, kind) =>
          if kind == RequestMessage {
            ConfirmRequest(world);
          }
        case Message(_, kind, _) =>
          if kind == ResponseMessage {
            ConfirmRequest(world);
            var _ :- SendAck(retry, world);
          }
        case _ =>
      }
      return Done(());
    }

    /** Listens on a socket whose request isn't acknowledged yet. */
    method AwaitAcceptance(retry: RetryState, world: World) returns (r: Await<()>)
      requires HandsOff(retry, world) && CanListen(retry, world) && !ViewOf(world.history).accepted
      modifies this`connected, this`request, retry, world`at, world`clock, world`history
      ensures Valid(world) && Continues(old(world.history), world.history) && SameText(old(request), request)
      ensures r.Done? ==> HandsOff(retry, world) && Advances(retry, world) && !HandedOff(world.history)
      ensures r.Failed? ==> CallFails(kind, ids, world.history, r.error)
      ensures world.at >= old(world.at) && (r.Dropped? ==> world.CutOffSince(old(world.at)))
    {
      ContinuesTransitiveFrom(world.history);
      var incoming :- Receive(retry, world);
      if incoming == None {
        return Done(());
      }
      r := NoteAcceptance(incoming.value, retry, world);
    }

    /** The frame just heard, on a socket that carries the completion. The result is whether
        the relay has taken responsibility for it. */
    method NoteConfirmation(frame: IncomingFrame, retry: RetryState, world: World) returns (r: Await<bool>)
      requires Kept(world) && Counts(retry, world.history) && connected && request.Some? && completion.Some?
      requires world.history.After? && world.history.event == Got(frame) && Matches(world.history.past)
      requires ViewOf(world.history.past).phase == Completing && ViewOf(world.history.past).accepted
      requires ViewOf(world.history.past).completionSent
      requires Furnished(ViewOf(world.history)) && Running(ViewOf(world.history))
      modifies this`connected, retry, world`at, world`clock, world`history
      ensures Valid(world) && Continues(old(world.history), world.history)
      ensures r.Done? ==> (r.value <==> HandedOff(world.history))
      ensures r.Done? && !r.value ==> HandsOff(retry, world)
      ensures r.Failed? ==> CallFails(kind, ids, world.history, r.error)
      ensures world.at >= old(world.at) && (r.Dropped? ==> world.CutOffSince(old(world.at)))
    {
      LegalIsCoherent(ids, world.history.past);
      match frame {
        case Ack(_, kind) =>
          if kind == CompletionMessage {
            return Done(true);
          }
        case Message(_, kind, _) =>
          if kind == ResponseMessage {
            var _ :- SendAck(retry, world);
          }
        case State(_, _, _, _, state) =>
          if state in {Accepted, Delivered, Discarded} {
            return Done(true);
          }
        case _ =>
      }
      return Done(false);
    }

    /** Listens on a socket that carries the completion. The result is whether the relay
        has taken responsibility for it. */
    method AwaitConfirmation(retry: RetryState, world: World) returns (r: Await<bool>)
      requires HandsOff(retry, world) && CanListen(retry, world)
      requires ViewOf(world.history).accepted && ViewOf(world.history).completionSent
      modifies this`connected, retry, world`at, world`clock, world`history
      ensures Valid(world) && Continues(old(world.history), world.history)
      ensures r.Done? ==> (r.value <==> HandedOff(world.history))
      ensures r.Done? && !r.value ==> HandsOff(retry, world) && Advances(retry, world)
      ensures r.Failed? ==> CallFails(kind, ids, world.history, r.error)
      ensures world.at >= old(world.at) && (r.Dropped? ==> world.CutOffSince(old(world.at)))
    {
      ContinuesTransitiveFrom(world.history);
      var incoming :- Receive(retry, world);
      if incoming == None {
        return Done(false);
      }
      r := NoteConfirmation(incoming.value, retry, world);
    }

    /** A connected socket, with everything that a round of the handoff can find there. */
    ghost predicate Ready(reconnected: bool, retry: RetryState, world: World)
      reads this, retry, world
    {
      && Faithful(world) && Counts(retry, world.history)
      && Running(ViewOf(world.history)) && !ViewOf(world.history).owesAck
      && connected && request.Some? && completion.Some? && ViewOf(world.history).phase == Completing
      && if ViewOf(world.history).accepted && (reconnected || !completion.value.sent)
         then Due(ids, ViewOf(world.history)) == Some(completion.value.text)
         else HandsOff(retry, world) && CanListen(retry, world)
    }

    /** Connects for the handoff. The result is whether that took a new connection. */
    method ConnectToHandOff(retry: RetryState, world: World) returns (r: Await<Option<bool>>)
      requires HandsOff(retry, world)
      modifies this`connected, this`request, retry, world`at, world`clock, world`history
      ensures Continues(old(world.history), world.history) && SameText(old(request), request)
      ensures r.Done? && r.value.Some? ==>
        Ready(r.value.value, retry, world) && retry.failures >= old(retry.failures)
      ensures r.Done? && r.value == None ==>
        && HandsOff(retry, world) && !HandedOff(world.history)
        && retry.failures > old(retry.failures) && world.at > old(world.at)
      ensures !r.Done? ==> Valid(world)
      ensures r.Failed? ==> CallFails(kind, ids, world.history, r.error)
      ensures world.at >= old(world.at) && (r.Dropped? ==> world.CutOffSince(old(world.at)))
    {
      LegalIsCoherent(ids, world.history);
      r := Connect(retry, world);
      LegalIsCoherent(ids, world.history);
    }

    /** Sends the completion if this socket needs it. The result is whether it is there. */
    method Replay(reconnected: bool, retry: RetryState, world: World) returns (r: Await<bool>)
      requires Ready(reconnected, retry, world) && ViewOf(world.history).accepted
      modifies this`connected, this`completion, retry, world`at, world`clock, world`history
      ensures Valid(world) && Continues(old(world.history), world.history) && SameText(old(completion), completion)
      ensures r.Done? ==> HandsOff(retry, world)
      ensures r.Done? && r.value ==>
        && CanListen(retry, world) && ViewOf(world.history).accepted && ViewOf(world.history).completionSent
        && retry.failures == old(retry.failures)
      ensures r.Done? && !r.value ==>
        !HandedOff(world.history) && retry.failures > old(retry.failures) && world.at > old(world.at)
      ensures r.Failed? ==> CallFails(kind, ids, world.history, r.error)
      ensures world.at >= old(world.at) && (r.Dropped? ==> world.CutOffSince(old(world.at)))
    {
      LegalIsCoherent(ids, world.history);
      if !reconnected && completion.value.sent {
        return Done(true);
      }
      r := SendCompletion(retry, world);
      CompletionRests(ids, ViewOf(old(world.history)), ViewOf(world.history), r);
    }

    /** One round of the completion loop. The result is whether the handoff is done: whether the
        relay has just said that it has the completion. */
    method CompletionRound(retry: RetryState, world: World) returns (r: Await<bool>)
      requires HandsOff(retry, world)
      modifies this, retry, world`at, world`clock, world`history
      ensures Valid(world) && Continues(old(world.history), world.history)
      ensures SameText(old(request), request) && SameText(old(completion), completion)
      ensures r.Done? ==> (r.value <==> HandedOff(world.history))
      ensures r == Done(true) ==> Confirmed(world.history)
      ensures r.Done? && !r.value ==> HandsOff(retry, world) && Advances(retry, world)
      ensures r.Failed? ==> CallFails(kind, ids, world.history, r.error)
      ensures world.at >= old(world.at) && (r.Dropped? ==> world.CutOffSince(old(world.at)))
    {
      ContinuesTransitiveFrom(world.history);
      var reconnected :- ConnectToHandOff(retry, world);
      if reconnected == None {
        return Done(false);
      }
      if !request.value.acknowledged {
        var _ :- AwaitAcceptance(retry, world);
        return Done(false);
      }
      var replayed :- Replay(reconnected.value, retry, world);
      if !replayed {
        return Done(false);
      }
      r := AwaitConfirmation(retry, world);
      HandedOffMeans(world.history);
    }

    /** Fixes the text of the completion at the first handoff. */
    method BeginCompletion(payload: Payload, size: nat, policy: RetryPolicy, ghost world: World) returns (r: Await<()>)
      requires Valid(world) && policy.maximumFailures > 0
      modifies this`completion, world`history
      ensures Valid(world) && Extends(old(world.history), world.history)
      ensures request == old(request)
      ensures r.Done? <==> old(request).Some? && (old(completion).Some? || size <= MAXIMUM_FRAME_SIZE)
      ensures !r.Done? ==>
        && world.history == old(world.history) && completion == old(completion) == None
        && r == Failed(if old(request) == None then ProtocolViolation else FrameTooLarge(size))
      ensures r.Done? ==>
        && completion == (if old(completion).Some? then old(completion)
                          else Some(OutgoingMessage(Send(ids, CompletionMessage, payload), false, false)))
        && request.Some? && Looping(ViewOf(world.history)) && ViewOf(world.history).phase == Completing
        && world.history == After(old(world.history), Began(HandOff(completion.value.text), policy))
    {
      LegalIsCoherent(ids, world.history);
      if request == None {
        return Failed(ProtocolViolation);
      }
      if completion == None {
        var message := NewMessage(Send(ids, CompletionMessage, payload), size);
        if message.Err? {
          return Failed(message.error);
        }
        completion := Some(message.value);
      }
      HandOffBegins(ids, world.history, completion.value.text, policy);
      world.Note(Began(HandOff(completion.value.text), policy));
      return Done(());
    }

    method CompleteWithPolicy(payload: Payload, size: nat, policy: RetryPolicy, world: World)
      returns (r: Await<()>)
      requires Valid(world) && policy.maximumFailures > 0
      modifies this, world`at, world`clock, world`history
      ensures Valid(world) && Extends(old(world.history), world.history) && SameText(old(request), request)
      ensures Carries(ids, old(completion), completion, old(request).Some?, payload, size)
      ensures Concludes(kind, ids, old(world.history), old(completion), completion, size, policy, world.history, r)
      ensures completion.Some? ==>
        && Tried(kind, ids, policy, world.history) && LastCall(world.history) == old(world.history)
        && HandOffStands(world.history, r)
      ensures completion.Some? ==> (r.Done? <==> Confirmed(world.history))
      ensures completion == None ==> world.at == old(world.at)
      ensures world.at >= old(world.at) && (r.Dropped? ==> world.CutOffSince(old(world.at)))
      ensures !r.Dropped? ==> !world.DroppedSince(old(world.at))
      ensures Cancellations(world.history) == Cancellations(old(world.history))
    {
      var _ :- BeginCompletion(payload, size, policy, world);
      ghost var begun := world.history;
      var retry := new RetryState(policy);
      r := RepeatRounds(retry, world);
      HandedOffMeans(world.history);
      FailedIsntHandedOff(kind, ids, world.history);
      HandOffEnds(begun, policy, r, world);
    }

    /** The completion loop. */
    method RepeatRounds(retry: RetryState, world: World) returns (r: Await<()>)
      requires HandsOff(retry, world)
      modifies this, retry, world`at, world`clock, world`history
      ensures Valid(world) && Continues(old(world.history), world.history) && world.at >= old(world.at)
      ensures SameText(old(request), request) && SameText(old(completion), completion)
      ensures HandOffStands(world.history, r)
      ensures r.Dropped? ==> world.CutOffSince(old(world.at))
    {
      ContinuesTransitiveFrom(world.history);
      while true
        invariant HandsOff(retry, world) && Continues(old(world.history), world.history)
        invariant SameText(old(request), request) && SameText(old(completion), completion)
        invariant world.at >= old(world.at)
        decreases if world.at < world.quiet then world.quiet - world.at else 0,
                  retry.policy.maximumFailures - retry.failures
      {
        var finished :- CompletionRound(retry, world);
        if finished {
          return Done(());
        }
      }
    }

    /** How a handoff that was begun ends. */
    ghost predicate HandOffStands(h: History, r: Await<()>) {
      match r
      case Done(_) => HandedOff(h)
      case Failed(error) => CallFails(kind, ids, h, error)
      case Dropped => Cut(h)
    }

    /** A call that ends with a result was never dropped, and no call is polled. */
    lemma CallEnds(begun: History, dropped: bool, world: World)
      requires Kept(world) && begun.After? && begun.event.Began? && Continues(begun, world.history)
      requires world.history.After? && !world.history.event.Polled? && (Cut(world.history) ==> dropped)
      ensures Extends(begun.past, world.history) && LastCall(world.history) == begun.past
      ensures ViewOf(world.history).policy == ViewOf(begun).policy
      ensures Cancellations(world.history) == Cancellations(begun.past)
      ensures !dropped ==> !world.DroppedSince(MomentOf(world.ThisRun(), begun.past).at)
    {
      CallExtends(begun.past, begun, world.history);
      CallIsUnpolled(ids, begun, world.history);
      if !dropped {
        CallIsUndropped(world.ThisRun(), begun, world.history);
      }
    }

    lemma HandOffEnds(begun: History, policy: RetryPolicy, r: Await<()>, world: World)
      requires Kept(world) && begun.After? && begun.event.Began? && Continues(begun, world.history)
      requires ViewOf(begun).policy == policy && HandOffStands(world.history, r)
      ensures Extends(begun.past, world.history) && LastCall(world.history) == begun.past
      ensures Cancellations(world.history) == Cancellations(begun.past)
      ensures Tried(kind, ids, policy, world.history)
      ensures !r.Dropped? ==> !world.DroppedSince(MomentOf(world.ThisRun(), begun.past).at)
    {
      CallEnds(begun, r.Dropped?, world);
      assert r.Failed? ==> CallFails(kind, ids, world.history, r.error);
    }

    method Complete(payload: Payload, size: nat, world: World) returns (r: Await<()>)
      requires Valid(world)
      modifies this, world`at, world`clock, world`history
      ensures Valid(world) && Extends(old(world.history), world.history) && SameText(old(request), request)
      ensures Carries(ids, old(completion), completion, old(request).Some?, payload, size)
      ensures Concludes(kind, ids, old(world.history), old(completion), completion, size, NORMAL_RETRY_POLICY,
                        world.history, r)
      ensures completion.Some? ==> Tried(kind, ids, NORMAL_RETRY_POLICY, world.history)
      ensures completion.Some? ==> (r.Done? <==> Confirmed(world.history))
      ensures world.at >= old(world.at) && (r.Dropped? ==> world.CutOffSince(old(world.at)))
      ensures !r.Dropped? ==> !world.DroppedSince(old(world.at))
      ensures old(request).Some? ==> HandsOver(kind, ids, old(completion), size, world.history, r)
    {
      ghost var past, former := world.history, completion;
      r := CompleteWithPolicy(payload, size, NORMAL_RETRY_POLICY, world);
      if request.Some? {
        ConcludesHandsOver(kind, ids, past, former, completion, size, world.history, r);
      }
    }

    /** A handoff that is given up where its timeout drops it first. Unless it is refused, it
        is really tried. */
    method CompleteBriefly(payload: Payload, size: nat, world: World) returns (r: Await<()>)
      requires Valid(world)
      modifies this, world`at, world`clock, world`history
      ensures Valid(world) && Extends(old(world.history), world.history) && SameText(old(request), request)
      ensures Carries(ids, old(completion), completion, old(request).Some?, payload, size)
      ensures
        || Concludes(kind, ids, old(world.history), old(completion), completion, size, BRIEF_RETRY_POLICY,
                     world.history, r)
        || (r == Failed(CompletionTimedOut) && CutOff(world.history))
      ensures r.Dropped? || r == Failed(CompletionTimedOut) ==>
        world.history.After? && world.history.event == Polled(r.Dropped?)
      ensures completion.Some? && world.history.After? && world.history.event == Polled(true) ==> r.Dropped?
      ensures completion.Some? ==>
        Tried(kind, ids, BRIEF_RETRY_POLICY, world.history) && LastCall(world.history) == old(world.history)
      ensures completion == None ==> world.history == old(world.history) && world.at == old(world.at)
      ensures world.at >= old(world.at)
      ensures world.DroppedSince(old(world.at)) <==> r.Dropped? || r == Failed(CompletionTimedOut)
      ensures Cancellations(world.history) == Cancellations(old(world.history)) + if r.Dropped? then 1 else 0
    {
      r := CompleteWithPolicy(payload, size, BRIEF_RETRY_POLICY, world);
      NoTimeoutOfItsOwn(kind, ids, world.history);
      if r.Dropped? {
        r := TimeOut(old(world.at), world);
      }
    }

    /** A brief handoff was dropped: by its timeout, unless the caller's own future was. */
    method TimeOut(ghost from: nat, world: World) returns (r: Await<()>)
      requires Valid(world) && world.CutOffSince(from) && Tried(kind, ids, BRIEF_RETRY_POLICY, world.history)
      modifies world`at, world`clock, world`history
      ensures Valid(world) && world.DroppedSince(from) && CutOff(world.history) && world.at >= old(world.at)
      ensures Tried(kind, ids, BRIEF_RETRY_POLICY, world.history) && Extends(old(world.history), world.history)
      ensures r in {Dropped, Failed(CompletionTimedOut)}
      ensures world.history == After(old(world.history), Polled(r.Dropped?))
    {
      ghost var past := world.history;
      var dropped := Poll(world);
      PollKeepsTried(kind, ids, BRIEF_RETRY_POLICY, past, dropped);
      r := if dropped then Dropped else Failed(CompletionTimedOut);
    }

    /** Hands off the completion unless cancellation comes first; then only a brief handoff
        follows. The result is whether it was cancelled. */
    method CompleteOrCancel(payload: Payload, size: nat, world: World) returns (r: Await<bool>)
      requires Valid(world) && request.Some?
      modifies this, world`at, world`clock, world`history
      ensures Valid(world) && Extends(old(world.history), world.history) && SameText(old(request), request)
      ensures Carries(ids, old(completion), completion, true, payload, size)
      ensures world.DroppedSince(old(world.at)) <==> (r.Done? && r.value) || r.Dropped?
      ensures Yields(kind, ids, old(completion), completion, size, world.history, r)
      ensures world.at >= old(world.at)
    {
      ExtendsTransitiveFrom(world.history);
      var completed := CompleteUnlessCancelled(payload, size, world);
      match completed
      case Done(_) => r := Done(false);
      case Failed(error) => r := Failed(error);
      case Dropped => r := Shorten(payload, size, world);
    }

    /** Cancellation is looked at first, and then drops the handoff wherever that waits. */
    method CompleteUnlessCancelled(payload: Payload, size: nat, world: World) returns (r: Await<()>)
      requires Valid(world) && request.Some?
      modifies this, world`at, world`clock, world`history
      ensures Valid(world) && Extends(old(world.history), world.history) && SameText(old(request), request)
      ensures
        || (r.Dropped? && completion == old(completion))
        || Carries(ids, old(completion), completion, true, payload, size)
      ensures r.Dropped? <==> world.DroppedSince(old(world.at))
      ensures HandsOver(kind, ids, old(completion), size, world.history, r) && world.at >= old(world.at)
    {
      ExtendsTransitiveFrom(world.history);
      var cancelled := Poll(world);
      if cancelled {
        return Dropped;
      }
      r := Complete(payload, size, world);
    }

    /** After cancellation only a brief handoff follows, whatever becomes of it. */
    method Shorten(payload: Payload, size: nat, world: World) returns (r: Await<bool>)
      requires Valid(world) && request.Some? && CutOff(world.history)
      modifies this, world`at, world`clock, world`history
      ensures Valid(world) && Extends(old(world.history), world.history) && SameText(old(request), request)
      ensures Carries(ids, old(completion), completion, true, payload, size)
      ensures r in {Done(true), Dropped} && world.at >= old(world.at)
      ensures Shortened(kind, ids, completion, world.history, r.Dropped?)
    {
      var brief := CompleteBriefly(payload, size, world);
      r := if brief.Dropped? then Dropped else Done(true);
    }
  }
}
