/** What a relay client may do, stated over the history of one exchange.

    A history lists what happened at each await of the client, newest event last, and when
    the client began a call and counted a failure. The world records it: a client can't put
    an event of the network into it, or leave one out. `View` folds it into the facts the
    protocol depends on. `Due` names the one frame those facts oblige the client to write
    next, and a legal client writes exactly that frame and listens only when no frame is due.
    What costs it a connection it counts next, and then it sleeps and goes on, or gives up,
    as the retry policy says. The lemmas say what every legal history has in common;
    RelayExchange keeps its history legal. */
module RelayHistory {
  import opened Wrappers
  import opened Protocol

  /** Times are in milliseconds. */
  datatype RetryPolicy = RetryPolicy(retryDelay: nat, failureTimeout: nat, maximumFailures: nat)

  const NORMAL_RETRY_POLICY := RetryPolicy(1000, 120_000, 10)
  const BRIEF_RETRY_POLICY := RetryPolicy(250, 5000, 2)

  datatype ConnectionKind = PairingConnection | ClientConnection

  datatype Call = StartRequest(text: OutgoingFrame) | HandOff(text: OutgoingFrame)

  datatype Event =
    | Began(call: Call, policy: RetryPolicy)
    | Opened
    | Unopened(outcome: ConnectOutcome)       // an attempt to be counted as a failure
    | Refused(outcome: ConnectOutcome)        // an attempt that ends the call
    | Wrote(frame: OutgoingFrame)
    | WriteBroke(frame: OutgoingFrame)
    | CutShort(frame: OutgoingFrame)          // the future was dropped during the write
    | Got(incoming: IncomingFrame)
    | Alive                                   // a WebSocket ping or pong
    | Lost(arrival: Arrival)                  // an arrival that costs the socket
    | Ended(arrival: Arrival)                 // an arrival that ends the call
    | Failure(now: nat)                       // the client counts what it has just lost
    | Slept(duration: nat, woken: nat)
    | Stopped                                 // the future was dropped at any other await
    | Polled(dropped: bool)                   // cancellation was looked at outside a call

  datatype History = Start | After(past: History, event: Event)

  datatype Phase = Idle | Requesting | Completing

  /** Where the retries stand. What has just been lost is to be counted as a failure; after
      that there is one sleep of a fixed length, or no retry is left. */
  datatype Stage = Going | Hit(delay: nat) | Resting(duration: nat) | Spent

  /** `openingCut` means that the first write was cut short, and `replayCut` that a
      write was cut short which a renewed copy of the completion depended on. */
  datatype Socket = Closed | Open(written: seq<OutgoingFrame>, openingCut: bool, replayCut: bool)

  datatype View = View(
    phase: Phase,
    policy: RetryPolicy,
    failures: nat,
    firstFailure: Option<nat>,
    stage: Stage,
    requestText: Option<OutgoingFrame>,
    completionText: Option<OutgoingFrame>,
    requestSent: bool,
    accepted: bool,
    completionSent: bool,
    socket: Socket,
    owesAck: bool,
    response: Option<Value>,
    openingCut: bool)

  const INITIAL_VIEW :=
    View(Idle, RetryPolicy(0, 0, 0), 0, None, Going, None, None, false, false, false, Closed, false, None, false)

  /** The error that an arrival ends the exchange with, without another attempt. */
  function Fatal(ids: Ids, arrival: Arrival): Option<RelayError> {
    match arrival
    case Text(frame) =>
      if !AddressedTo(frame, ids) then Some(ProtocolViolation)
      else if frame.Error? && !frame.retryable then Some(RelayRejected(frame.code, frame.text))
      else if frame.Inactive? then Some(ExchangeInactive(frame.inactiveKind))
      else None
    case Malformed => Some(InvalidJson)
    case Binary => Some(ProtocolViolation)
    case CloseFrame(code) => if code in {4002, 4003} then Some(ClientSuspended(code)) else None
    case Control => None
    case Gone => None
  }

  /** What an arrival is to an exchange. */
  function EventOf(ids: Ids, arrival: Arrival): Event {
    if Fatal(ids, arrival).Some? then Ended(arrival)
    else match arrival
      case Text(frame) => if frame.Error? then Lost(arrival) else Got(frame)
      case Control => Alive
      case _ => Lost(arrival)
  }

  /** The error that a connection attempt ends the exchange with. */
  function FatalConnect(kind: ConnectionKind, outcome: ConnectOutcome): Option<RelayError> {
    match outcome
    case Connected => None
    case Unreachable => None
    case NotUpgraded(status) =>
      if status == 403 && kind == ClientConnection then Some(ClientSuspended(status))
      else if status < 500 then Some(UnexpectedStatus(status))
      else None
    case ProxyRejects(status) => if 500 <= status < 600 then None else Some(ProxyRejected(status))
  }

  /** What a connection attempt is to an exchange. */
  function AttemptOf(kind: ConnectionKind, outcome: ConnectOutcome): Event {
    if outcome == Connected then Opened
    else if FatalConnect(kind, outcome).Some? then Refused(outcome)
    else Unopened(outcome)
  }

  /** How long a client waits after an arrival that cost it the socket. */
  function DelayAfter(arrival: Arrival, policy: RetryPolicy): nat {
    if arrival.Text? && arrival.frame.Error?
    then (if arrival.frame.retryAfter.Some? then arrival.frame.retryAfter.value else 1000)
    else policy.retryDelay
  }

  /** The client's own notes take no await. */
  predicate IsNote(event: Event) {
    event.Began? || event.Failure?
  }

  predicate IsResponse(frame: IncomingFrame) {
    frame.Message? && frame.kind == ResponseMessage
  }

  predicate IsSend(frame: OutgoingFrame, kind: MessageKind) {
    frame.Send? && frame.kind == kind
  }

  /** Whether a frame shows that the relay has accepted the request. A snapshot is
      consulted only while the request itself is being made. */
  predicate ConfirmsRequest(phase: Phase, frame: IncomingFrame) {
    || ((frame.Ack? || frame.Receipt?) && frame.kind == RequestMessage)
    || IsResponse(frame)
    || (phase == Requesting && frame.State? && frame.request in {Accepted, Delivered})
  }

  predicate CompletionWritten(v: View) {
    v.socket.Open? && v.completionText.Some? && v.completionText.value in v.socket.written
  }

  /** The frames that a renewed copy of the completion depends on: a resume, and that copy. */
  predicate Replays(v: View, frame: OutgoingFrame) {
    frame.Resume? || Some(frame) == v.completionText
  }

  function AfterCall(v: View, call: Call, policy: RetryPolicy): View {
    var begun := v.(policy := policy, failures := 0, firstFailure := None, stage := Going, owesAck := false);
    if call.StartRequest? then
      begun.(phase := Requesting, requestText := Some(call.text))
    else
      begun.(phase := Completing,
             completionText := if v.completionText.Some? then v.completionText else Some(call.text))
  }

  function AfterWrite(v: View, frame: OutgoingFrame): View {
    v.(socket := if v.socket.Open? then v.socket.(written := v.socket.written + [frame]) else Closed,
       owesAck := v.owesAck && !frame.Acknowledge?,
       requestSent := v.requestSent || IsSend(frame, RequestMessage),
       completionSent := v.completionSent || IsSend(frame, CompletionMessage))
  }

  function AfterCut(v: View, frame: OutgoingFrame): View {
    if v.socket.Closed? then v.(phase := Idle) else
    var opening := v.socket.written == [];
    v.(phase := Idle,
       openingCut := v.openingCut || opening,
       socket := v.socket.(openingCut := v.socket.openingCut || opening,
                           replayCut := v.socket.replayCut || (v.completionSent && Replays(v, frame))))
  }

  function AfterFrame(v: View, frame: IncomingFrame): View {
    v.(failures := 0,
       firstFailure := None,
       accepted := v.accepted || ConfirmsRequest(v.phase, frame),
       owesAck := IsResponse(frame),
       response := if v.phase == Requesting && IsResponse(frame) && v.response == None
                   then Some(frame.payload) else v.response)
  }

  /** The first of the failures that would now be counted consecutively, and the time limit it sets. */
  function FirstFailure(v: View, now: nat): nat {
    if v.firstFailure.Some? then v.firstFailure.value else now
  }

  function Deadline(v: View, now: nat): nat {
    FirstFailure(v, now) + v.policy.failureTimeout
  }

  /** One failure more. No retry is left at the limit of failures or at the deadline, and a
      sleep never goes on past that. */
  function AfterFailure(v: View, now: nat, delay: nat): View {
    v.(failures := v.failures + 1,
       firstFailure := Some(FirstFailure(v, now)),
       stage := if v.failures + 1 >= v.policy.maximumFailures || now >= Deadline(v, now) then Spent
                else Resting(if now + delay < Deadline(v, now) then delay else Deadline(v, now) - now))
  }

  function Advance(v: View, event: Event): View {
    match event
    case Began(call, policy) => AfterCall(v, call, policy)
    case Opened => v.(socket := Open([], false, false))
    case Unopened(_) => v.(stage := Hit(v.policy.retryDelay))
    case Refused(_) => v.(phase := Idle)
    case Wrote(frame) => AfterWrite(v, frame)
    case WriteBroke(_) => v.(socket := Closed, stage := Hit(v.policy.retryDelay), owesAck := false)
    case CutShort(frame) => AfterCut(v, frame)
    case Got(frame) => AfterFrame(v, frame)
    case Alive => v.(failures := 0, firstFailure := None)
    case Lost(arrival) => v.(socket := Closed, stage := Hit(DelayAfter(arrival, v.policy)))
    case Ended(arrival) => v.(phase := Idle, socket := if arrival.CloseFrame? then Closed else v.socket)
    case Failure(now) => AfterFailure(v, now, if v.stage.Hit? then v.stage.delay else 0)
    case Slept(_, woken) => v.(stage := if woken >= Deadline(v, woken) then Spent else Going)
    case Stopped => v.(phase := Idle)
    case Polled(_) => v.(phase := Idle)
  }

  function ViewOf(h: History): View {
    match h
    case Start => INITIAL_VIEW
    case After(past, event) => Advance(ViewOf(past), event)
  }

  /** The first frame of a connection: the request until the relay is known to have it. */
  function Opening(ids: Ids, v: View): Option<OutgoingFrame> {
    if v.accepted then Some(Resume(ids)) else v.requestText
  }

  /** A completion is owed once on every connection that knows the request accepted. */
  predicate OwesCompletion(v: View) {
    && v.phase == Completing
    && v.accepted
    && v.socket.Open?
    && !CompletionWritten(v)
    && !v.socket.replayCut
  }

  function Due(ids: Ids, v: View): Option<OutgoingFrame> {
    if v.socket.Closed? then None
    else if v.socket.written == [] && !v.socket.openingCut then Opening(ids, v)
    else if v.owesAck then Some(Acknowledge(ids, ResponseMessage))
    else if OwesCompletion(v) then v.completionText
    else None
  }

  predicate Running(v: View) {
    v.phase != Idle && v.stage == Going && v.failures < v.policy.maximumFailures
  }

  predicate Listening(ids: Ids, v: View) {
    v.socket.Open? && Due(ids, v) == None
  }

  /** A call may end here: no failure is left uncounted, and no response unacknowledged and
      no sleep unslept unless the future was dropped. */
  predicate Between(v: View) {
    !v.stage.Hit? && (v.owesAck || v.stage.Resting? ==> v.phase == Idle)
  }

  predicate Allowed(ids: Ids, v: View, event: Event) {
    match event
    case Began(StartRequest(text), policy) =>
      && policy.maximumFailures > 0 && Between(v)
      && v.requestText == None && IsSend(text, RequestMessage) && text.ids == ids
    case Began(HandOff(text), policy) =>
      && policy.maximumFailures > 0 && Between(v)
      && v.requestText.Some? && IsSend(text, CompletionMessage) && text.ids == ids
    case Opened => Running(v) && v.socket.Closed?
    case Unopened(_) => Running(v) && v.socket.Closed?
    case Refused(_) => Running(v) && v.socket.Closed?
    case Wrote(frame) => Running(v) && Due(ids, v) == Some(frame)
    case WriteBroke(frame) => Running(v) && Due(ids, v) == Some(frame)
    case CutShort(frame) => Running(v) && Due(ids, v) == Some(frame)
    case Got(frame) =>
      Running(v) && Listening(ids, v) && AddressedTo(frame, ids) && !frame.Inactive? && !frame.Error?
    case Alive => Running(v) && Listening(ids, v)
    case Lost(arrival) => Running(v) && Listening(ids, v) && EventOf(ids, arrival).Lost?
    case Ended(arrival) => Running(v) && Listening(ids, v) && Fatal(ids, arrival).Some?
    case Failure(_) => v.phase != Idle && v.stage.Hit?
    case Slept(duration, _) => v.phase != Idle && v.stage == Resting(duration)
    case Stopped =>
      v.phase != Idle && (v.stage.Resting? || (Running(v) && (v.socket.Closed? || Listening(ids, v))))
    case Polled(_) => Between(v)
  }

  ghost predicate Legal(ids: Ids, h: History) {
    h.After? ==> Legal(ids, h.past) && Allowed(ids, ViewOf(h.past), h.event)
  }

  /** A call was cut off: its future was dropped at one of its awaits. */
  predicate Cut(h: History) {
    h.After? && (h.event == Stopped || h.event.CutShort?)
  }

  /** A call ended without a result: it was cut off, which may have been its timeout, or it was
      cancelled before it began. */
  predicate CutOff(h: History) {
    || Cut(h)
    || (h.After? && (h.event == Polled(true) || (h.event == Polled(false) && CutOff(h.past))))
  }

  /** How often a look between calls found that the future is dropped. */
  function Cancellations(h: History): nat {
    match h
    case Start => 0
    case After(past, event) => Cancellations(past) + if event == Polled(true) then 1 else 0
  }

  /** The history when its last call began. */
  function LastCall(h: History): History {
    match h
    case Start => Start
    case After(past, event) => if event.Began? then past else LastCall(past)
  }

  // ---- Facts about one moment -------------------------------------------

  /** How the facts of a legal history hang together. */
  ghost predicate Coherent(ids: Ids, v: View) {
    && (v.requestText.Some? ==> IsSend(v.requestText.value, RequestMessage) && v.requestText.value.ids == ids)
    && (v.completionText.Some? ==>
          IsSend(v.completionText.value, CompletionMessage) && v.completionText.value.ids == ids)
    && (v.requestText == None ==>
          v.phase == Idle && v.socket.Closed? && !v.requestSent && !v.accepted && v.response == None)
    && (v.completionText.Some? ==> v.requestText.Some? && v.phase != Requesting)
    && (v.phase == Completing ==> v.completionText.Some?)
    && (v.completionSent ==> v.completionText.Some? && v.accepted)
    && (v.stage != Going ==> v.socket.Closed?)
    && (v.phase != Idle && v.stage.Hit? ==> v.failures < v.policy.maximumFailures)
    && (v.phase != Idle && v.stage.Resting? ==> v.failures < v.policy.maximumFailures)
    && (v.failures > 0 <==> v.firstFailure.Some?)
    && (v.stage.Resting? ==> v.failures > 0)
    && (v.response.Some? ==> v.accepted)
    && (v.owesAck ==> v.accepted && v.socket.Open?)
    && (v.socket.Open? ==>
          forall frame <- v.socket.written :: IsSend(frame, CompletionMessage) ==> v.completionSent)
    && (v.accepted && !v.openingCut ==> v.requestSent)
    && (v.socket.Open? && v.socket.written != [] && !v.openingCut ==> v.requestSent)
    && (v.socket.Open? && v.socket.written != [] && !v.socket.openingCut && !v.accepted ==> v.requestSent)
    && (v.socket.Open? && v.socket.openingCut ==> v.openingCut)
    && (v.socket.Open? && v.phase == Requesting ==> !v.socket.openingCut)
    && (v.socket.Open? && v.socket.replayCut ==> v.completionSent && !CompletionWritten(v))
    && v.failures <= v.policy.maximumFailures
  }

  lemma CallKeepsCoherence(ids: Ids, v: View, call: Call, policy: RetryPolicy)
    requires Coherent(ids, v) && Allowed(ids, v, Began(call, policy))
    ensures Coherent(ids, AfterCall(v, call, policy))
  {
  }

  lemma WriteKeepsCoherence(ids: Ids, v: View, frame: OutgoingFrame)
    requires Coherent(ids, v) && Due(ids, v) == Some(frame)
    ensures Coherent(ids, AfterWrite(v, frame))
  {
  }

  lemma CutKeepsCoherence(ids: Ids, v: View, frame: OutgoingFrame)
    requires Coherent(ids, v) && Due(ids, v) == Some(frame)
    ensures Coherent(ids, AfterCut(v, frame))
  {
  }

  lemma FrameKeepsCoherence(ids: Ids, v: View, frame: IncomingFrame)
    requires Coherent(ids, v) && Allowed(ids, v, Got(frame))
    ensures Coherent(ids, AfterFrame(v, frame))
  {
  }

  lemma LossKeepsCoherence(ids: Ids, v: View, event: Event)
    requires Coherent(ids, v) && Allowed(ids, v, event)
    requires event.WriteBroke? || event.Lost? || event.Ended?
    ensures Coherent(ids, Advance(v, event))
  {
  }

  lemma AttemptKeepsCoherence(ids: Ids, v: View, event: Event)
    requires Coherent(ids, v) && Allowed(ids, v, event)
    requires event.Opened? || event.Unopened? || event.Refused? || event.Alive?
    ensures Coherent(ids, Advance(v, event))
  {
  }

  lemma RetryKeepsCoherence(ids: Ids, v: View, event: Event)
    requires Coherent(ids, v) && Allowed(ids, v, event)
    requires event.Failure? || event.Slept? || event.Stopped? || event.Polled?
    ensures Coherent(ids, Advance(v, event))
  {
  }

  lemma StepKeepsCoherence(ids: Ids, v: View, event: Event)
    requires Coherent(ids, v) && Allowed(ids, v, event)
    ensures Coherent(ids, Advance(v, event))
  {
    match event
    case Began(call, policy) => CallKeepsCoherence(ids, v, call, policy);
    case Wrote(frame) => WriteKeepsCoherence(ids, v, frame);
    case CutShort(frame) => CutKeepsCoherence(ids, v, frame);
    case Got(frame) => FrameKeepsCoherence(ids, v, frame);
    case WriteBroke(_) => LossKeepsCoherence(ids, v, event);
    case Lost(_) => LossKeepsCoherence(ids, v, event);
    case Ended(_) => LossKeepsCoherence(ids, v, event);
    case Failure(_) => RetryKeepsCoherence(ids, v, event);
    case Slept(_, _) => RetryKeepsCoherence(ids, v, event);
    case Stopped => RetryKeepsCoherence(ids, v, event);
    case Polled(_) => RetryKeepsCoherence(ids, v, event);
    case _ => AttemptKeepsCoherence(ids, v, event);
  }

  lemma {:induction false} LegalIsCoherent(ids: Ids, h: History)
    requires Legal(ids, h)
    ensures Coherent(ids, ViewOf(h))
  {
    if h.After? {
      LegalIsCoherent(ids, h.past);
      StepKeepsCoherence(ids, ViewOf(h.past), h.event);
    }
  }

  /** Whatever arrives while a client may listen is an event it has to live with. */
  lemma ArrivalIsAllowed(ids: Ids, v: View, arrival: Arrival)
    requires Running(v) && Listening(ids, v)
    ensures Allowed(ids, v, EventOf(ids, arrival))
  {
  }

  lemma AttemptIsAllowed(ids: Ids, v: View, kind: ConnectionKind, outcome: ConnectOutcome)
    requires Running(v) && v.socket.Closed?
    ensures Allowed(ids, v, AttemptOf(kind, outcome))
  {
  }

  // ---- Facts about how a history grows ----------------------------------

  ghost predicate Extends(past: History, h: History) {
    past == h || (h.After? && Extends(past, h.past))
  }

  lemma {:induction false} ExtendsTransitive(a: History, b: History, c: History)
    requires Extends(a, b) && Extends(b, c)
    ensures Extends(a, c)
  {
    if b != c {
      ExtendsTransitive(a, b, c.past);
    }
  }

  lemma ExtendsTransitiveFrom(a: History)
    ensures forall b, c :: Extends(a, b) && Extends(b, c) ==> Extends(a, c)
  {
    forall b, c | Extends(a, b) && Extends(b, c)
      ensures Extends(a, c)
    {
      ExtendsTransitive(a, b, c);
    }
  }

  /** A history goes on within one call. */
  ghost predicate Continues(past: History, h: History) {
    past == h || (h.After? && !h.event.Began? && Continues(past, h.past))
  }

  lemma {:induction false} ContinuesTransitive(a: History, b: History, c: History)
    requires Continues(a, b) && Continues(b, c)
    ensures Continues(a, c)
  {
    if b != c {
      ContinuesTransitive(a, b, c.past);
    }
  }

  lemma ContinuesTransitiveFrom(a: History)
    ensures forall b, c :: Continues(a, b) && Continues(b, c) ==> Continues(a, c)
  {
    forall b, c | Continues(a, b) && Continues(b, c)
      ensures Continues(a, c)
    {
      ContinuesTransitive(a, b, c);
    }
  }

  lemma PolicyStays(v: View, event: Event)
    requires !event.Began?
    ensures Advance(v, event).policy == v.policy
  {
    match event
    case Got(_) =>
    case _ =>
  }

  /** Within one call there is one retry policy. */
  lemma {:induction false} ContinuesUnderPolicy(past: History, h: History)
    requires Continues(past, h)
    ensures Extends(past, h) && ViewOf(h).policy == ViewOf(past).policy && LastCall(h) == LastCall(past)
  {
    if past != h {
      ContinuesUnderPolicy(past, h.past);
      PolicyStays(ViewOf(h.past), h.event);
    }
  }

  /** Only in its last event can a call be polled, or cut off. */
  lemma {:induction false} CallIsUnpolled(ids: Ids, begun: History, h: History)
    requires Legal(ids, h) && Continues(begun, h) && (h == begun || !h.event.Polled?)
    ensures Cancellations(h) == Cancellations(begun)
  {
    if h != begun {
      WithinCall(ids, ViewOf(h.past), h.event);
      if h.past != begun && h.past.event.Polled? {
        CutIsIdle(h.past);
        assert false;
      }
      CallIsUnpolled(ids, begun, h.past);
    }
  }

  lemma CutIsIdle(h: History)
    requires Cut(h) || (h.After? && h.event.Polled?)
    ensures ViewOf(h).phase == Idle
  {
  }

  lemma WithinCall(ids: Ids, v: View, event: Event)
    requires Allowed(ids, v, event) && !event.Began? && !event.Polled?
    ensures v.phase != Idle
  {
  }

  /** What is fixed or known once stays so for the rest of the exchange. */
  predicate Persists(v: View, w: View) {
    && (v.requestText.Some? ==> w.requestText == v.requestText)
    && (v.completionText.Some? ==> w.completionText == v.completionText)
    && (v.requestSent ==> w.requestSent)
    && (v.accepted ==> w.accepted)
    && (v.completionSent ==> w.completionSent)
    && (v.response.Some? ==> w.response == v.response)
  }

  lemma CallPersists(ids: Ids, v: View, call: Call, policy: RetryPolicy)
    requires Coherent(ids, v) && Allowed(ids, v, Began(call, policy))
    ensures Persists(v, AfterCall(v, call, policy))
  {
  }

  /** Neither a call begins nor a message or acknowledgement passes. */
  predicate IsQuiet(event: Event) {
    !event.Began? && !event.Wrote? && !event.CutShort? && !event.Got?
  }

  /** A quiet event says nothing about the messages, and at most opens or closes the socket. */
  lemma QuietChanges(v: View, event: Event)
    requires IsQuiet(event)
    ensures var w := Advance(v, event);
      && w == v.(phase := w.phase, failures := w.failures, firstFailure := w.firstFailure, stage := w.stage,
                 socket := w.socket, owesAck := w.owesAck)
      && (event.Opened? || w.socket in {Closed, v.socket})
  {
    match event
    case Failure(_) =>
    case Slept(_, _) =>
    case Ended(_) =>
    case Lost(_) =>
    case WriteBroke(_) =>
    case _ =>
  }

  lemma StepPersists(ids: Ids, v: View, event: Event)
    requires Coherent(ids, v) && Allowed(ids, v, event)
    ensures Persists(v, Advance(v, event))
  {
    match event
    case Began(call, policy) => CallPersists(ids, v, call, policy);
    case Wrote(_) =>
    case CutShort(_) =>
    case Got(_) =>
    case _ => QuietChanges(v, event);
  }

  lemma {:induction false} ExtensionPersists(ids: Ids, past: History, h: History)
    requires Legal(ids, h) && Extends(past, h)
    ensures Legal(ids, past) && Persists(ViewOf(past), ViewOf(h))
  {
    if past != h {
      ExtensionPersists(ids, past, h.past);
      LegalIsCoherent(ids, h.past);
      StepPersists(ids, ViewOf(h.past), h.event);
    }
  }
}
