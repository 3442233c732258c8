/** What every legal history of an exchange guarantees. */
module RelayTheorems {
  import opened Wrappers
  import opened Protocol
  import opened RelayHistory
  import opened Schedule

  // ---- Connection transcripts -------------------------------------------

  /** Everything written on one connection, whether the relay was known to have the
      request when it was opened, and whether its first write was cut short. */
  datatype Connection = Connection(resumes: bool, written: seq<OutgoingFrame>, openingCut: bool)

  function ReplaceLast(connections: seq<Connection>, last: Connection): seq<Connection> {
    if connections == [] then [] else connections[..|connections| - 1] + [last]
  }

  function Transcribe(v: View, connections: seq<Connection>, event: Event): seq<Connection> {
    if event.Opened? then
      connections + [Connection(v.accepted, [], false)]
    else if connections == [] then
      []
    else
      var last := connections[|connections| - 1];
      match event
      case Wrote(frame) => ReplaceLast(connections, last.(written := last.written + [frame]))
      case CutShort(_) => ReplaceLast(connections, last.(openingCut := last.openingCut || last.written == []))
      case _ => connections
  }

  /** The transcripts of all connections, oldest first. */
  function Connections(h: History): seq<Connection> {
    match h
    case Start => []
    case After(past, event) => Transcribe(ViewOf(past), Connections(past), event)
  }

  /** The shape of a transcript: the request or a resume first, unless that write was cut
      short, then only acknowledgements of the response and at most one completion. */
  predicate WellShaped(ids: Ids, v: View, c: Connection) {
    && (c.written != [] ==>
          (!c.openingCut <==> Some(c.written[0]) == if c.resumes then Some(Resume(ids)) else v.requestText))
    && (forall k | 0 <= k < |c.written| ::
          || (k == 0 && !c.openingCut)
          || c.written[k] == Acknowledge(ids, ResponseMessage)
          || (Some(c.written[k]) == v.completionText && c.written[k] !in c.written[..k]))
  }

  ghost predicate Transcribed(ids: Ids, v: View, connections: seq<Connection>) {
    && (v.requestText == None ==> connections == [])
    && (forall c <- connections :: WellShaped(ids, v, c))
    && (v.socket.Open? ==>
          && connections != []
          && var last := connections[|connections| - 1];
          && last.written == v.socket.written
          && last.openingCut == v.socket.openingCut
          && (last.written == [] && !last.openingCut ==> last.resumes == v.accepted))
  }

  /** A transcript keeps its shape when the texts it depends on stay fixed. */
  lemma ShapeNeedsOnlyTexts(ids: Ids, v: View, w: View, connections: seq<Connection>)
    requires forall c <- connections :: WellShaped(ids, v, c)
    requires w.requestText == v.requestText
    requires v.completionText.Some? ==> w.completionText == v.completionText
    ensures forall c <- connections :: WellShaped(ids, w, c)
  {
    forall c <- connections
      ensures WellShaped(ids, w, c)
    {
      assert WellShaped(ids, v, c);
    }
  }

  lemma WriteKeepsShape(ids: Ids, v: View, c: Connection, frame: OutgoingFrame)
    requires Coherent(ids, v) && v.socket.Open? && Due(ids, v) == Some(frame)
    requires WellShaped(ids, v, c) && c.written == v.socket.written && c.openingCut == v.socket.openingCut
    requires c.written == [] && !c.openingCut ==> c.resumes == v.accepted
    ensures WellShaped(ids, v, c.(written := c.written + [frame]))
  {
    var n := |c.written|;
    var longer := c.written + [frame];
    assert longer[..n] == c.written;
    forall k | 0 <= k < |longer|
      ensures
        || (k == 0 && !c.openingCut)
        || longer[k] == Acknowledge(ids, ResponseMessage)
        || (Some(longer[k]) == v.completionText && longer[k] !in longer[..k])
    {
      if k < n {
        assert longer[..k] == c.written[..k];
      }
    }
  }

  lemma WriteKeepsTranscripts(ids: Ids, v: View, connections: seq<Connection>, frame: OutgoingFrame)
    requires Coherent(ids, v) && Due(ids, v) == Some(frame)
    requires Transcribed(ids, v, connections)
    ensures Transcribed(ids, AfterWrite(v, frame), Transcribe(v, connections, Wrote(frame)))
  {
    WriteKeepsShape(ids, v, connections[|connections| - 1], frame);
    ShapeNeedsOnlyTexts(ids, v, AfterWrite(v, frame), Transcribe(v, connections, Wrote(frame)));
  }

  lemma CutKeepsTranscripts(ids: Ids, v: View, connections: seq<Connection>, frame: OutgoingFrame)
    requires Coherent(ids, v) && Due(ids, v) == Some(frame)
    requires Transcribed(ids, v, connections)
    ensures Transcribed(ids, AfterCut(v, frame), Transcribe(v, connections, CutShort(frame)))
  {
    assert WellShaped(ids, v, connections[|connections| - 1]);
    ShapeNeedsOnlyTexts(ids, v, AfterCut(v, frame), Transcribe(v, connections, CutShort(frame)));
  }

  lemma OpeningKeepsTranscripts(ids: Ids, v: View, connections: seq<Connection>)
    requires Coherent(ids, v) && Allowed(ids, v, Opened) && Transcribed(ids, v, connections)
    ensures Transcribed(ids, Advance(v, Opened), Transcribe(v, connections, Opened))
  {
    ShapeNeedsOnlyTexts(ids, v, Advance(v, Opened), connections);
    assert WellShaped(ids, v, Connection(v.accepted, [], false));
  }

  /** Events that write nothing leave the texts alone, and the socket unless they close it. */
  lemma SilenceChangesLittle(ids: Ids, v: View, event: Event)
    requires Coherent(ids, v) && Allowed(ids, v, event) && v.requestText.Some?
    requires !event.Opened? && !event.Wrote? && !event.CutShort?
    ensures var w := Advance(v, event);
      && w.requestText == v.requestText && (v.completionText.Some? ==> w.completionText == v.completionText)
      && (w.socket.Open? ==> w.socket == v.socket)
      && (w.socket.Open? && w.socket.written == [] && !w.socket.openingCut ==> w.accepted == v.accepted)
  {
    match event
    case Began(_, _) =>
    case Got(_) =>
    case _ => QuietChanges(v, event);
  }

  /** Events that write nothing leave the transcripts alone. */
  lemma SilenceKeepsTranscripts(ids: Ids, v: View, connections: seq<Connection>, event: Event)
    requires Coherent(ids, v) && Allowed(ids, v, event) && Coherent(ids, Advance(v, event))
    requires !event.Opened? && !event.Wrote? && !event.CutShort? && Transcribed(ids, v, connections)
    ensures Transcribed(ids, Advance(v, event), connections)
  {
    if v.requestText.Some? {
      SilenceChangesLittle(ids, v, event);
      ShapeNeedsOnlyTexts(ids, v, Advance(v, event), connections);
    }
  }

  lemma StepKeepsTranscripts(ids: Ids, v: View, connections: seq<Connection>, event: Event)
    requires Coherent(ids, v) && Allowed(ids, v, event) && Coherent(ids, Advance(v, event))
    requires Transcribed(ids, v, connections)
    ensures Transcribed(ids, Advance(v, event), Transcribe(v, connections, event))
  {
    match event
    case Opened => OpeningKeepsTranscripts(ids, v, connections);
    case Wrote(frame) => WriteKeepsTranscripts(ids, v, connections, frame);
    case CutShort(frame) => CutKeepsTranscripts(ids, v, connections, frame);
    case _ => SilenceKeepsTranscripts(ids, v, connections, event);
  }

  lemma {:induction false} EveryConnection(ids: Ids, h: History)
    requires Legal(ids, h)
    ensures Transcribed(ids, ViewOf(h), Connections(h))
  {
    if h.After? {
      EveryConnection(ids, h.past);
      LegalIsCoherent(ids, h.past);
      StepKeepsCoherence(ids, ViewOf(h.past), h.event);
      StepKeepsTranscripts(ids, ViewOf(h.past), Connections(h.past), h.event);
    }
  }

  /** Each connection begins with the request exactly when no acceptance of it had been
      seen, and with a resume otherwise; every copy of the request is the same text. */
  lemma ConnectionsBeginRight(ids: Ids, h: History, i: nat)
    requires Legal(ids, h) && i < |Connections(h)| && Connections(h)[i].written != []
    ensures var c, v := Connections(h)[i], ViewOf(h);
      && v.requestText.Some?
      && (!c.openingCut <==> c.written[0] == if c.resumes then Resume(ids) else v.requestText.value)
      && (forall k | 0 <= k < |c.written| && IsSend(c.written[k], RequestMessage) ::
            k == 0 && !c.resumes && !c.openingCut && c.written[k] == v.requestText.value)
      && (forall k | 0 <= k < |c.written| && IsSend(c.written[k], CompletionMessage) ::
            Some(c.written[k]) == v.completionText && c.written[k] !in c.written[..k])
  {
    EveryConnection(ids, h);
    LegalIsCoherent(ids, h);
    var c, v := Connections(h)[i], ViewOf(h);
    assert WellShaped(ids, v, c);
    if !c.openingCut && !c.resumes {
      assert v.requestText == Some(c.written[0]);
    }
    forall k | 0 <= k < |c.written| && IsSend(c.written[k], CompletionMessage)
      ensures Some(c.written[k]) == v.completionText && c.written[k] !in c.written[..k]
    {
    }
  }

  // ---- Order of the messages --------------------------------------------

  ghost predicate Happened(h: History, event: Event) {
    h.After? && (h.event == event || Happened(h.past, event))
  }

  /** A connection opened before the acceptance whose first write was completed. */
  predicate CarriesRequest(c: Connection) {
    !c.resumes && !c.openingCut && c.written != []
  }

  /** The request is known to be sent once a connection carries it. */
  ghost predicate SentOnSome(v: View, connections: seq<Connection>) {
    v.requestSent <==> exists i | 0 <= i < |connections| :: CarriesRequest(connections[i])
  }

  lemma WriteKeepsSentOnSome(ids: Ids, v: View, connections: seq<Connection>, frame: OutgoingFrame)
    requires Coherent(ids, v) && Due(ids, v) == Some(frame) && Transcribed(ids, v, connections)
    requires SentOnSome(v, connections)
    ensures SentOnSome(AfterWrite(v, frame), Transcribe(v, connections, Wrote(frame)))
  {
    var n := |connections|;
    var after := Transcribe(v, connections, Wrote(frame));
    assert forall i | 0 <= i < n - 1 :: after[i] == connections[i];
    if IsSend(frame, RequestMessage) {
      assert CarriesRequest(after[n - 1]);
    } else if v.requestSent {
      var i :| 0 <= i < n && CarriesRequest(connections[i]);
      assert CarriesRequest(after[i]);
    } else {
      assert !CarriesRequest(connections[n - 1]) && !CarriesRequest(after[n - 1]);
    }
  }

  lemma CutKeepsSentOnSome(ids: Ids, v: View, connections: seq<Connection>, frame: OutgoingFrame)
    requires Coherent(ids, v) && Due(ids, v) == Some(frame) && Transcribed(ids, v, connections)
    requires SentOnSome(v, connections)
    ensures SentOnSome(AfterCut(v, frame), Transcribe(v, connections, CutShort(frame)))
  {
    var after := Transcribe(v, connections, CutShort(frame));
    assert forall i | 0 <= i < |connections| :: CarriesRequest(after[i]) <==> CarriesRequest(connections[i]);
  }

  lemma StepKeepsSentOnSome(ids: Ids, v: View, connections: seq<Connection>, event: Event)
    requires Coherent(ids, v) && Allowed(ids, v, event) && Transcribed(ids, v, connections)
    requires SentOnSome(v, connections)
    ensures SentOnSome(Advance(v, event), Transcribe(v, connections, event))
  {
    match event
    case Wrote(frame) => WriteKeepsSentOnSome(ids, v, connections, frame);
    case CutShort(frame) => CutKeepsSentOnSome(ids, v, connections, frame);
    case Opened =>
      var after := Transcribe(v, connections, event);
      assert forall i | 0 <= i < |connections| :: after[i] == connections[i];
      assert !CarriesRequest(after[|connections|]);
    case Began(_, _) =>
    case Got(_) =>
    case _ => QuietChanges(v, event);
  }

  lemma {:induction false} SentOnSomeConnection(ids: Ids, h: History)
    requires Legal(ids, h)
    ensures SentOnSome(ViewOf(h), Connections(h))
  {
    if h.After? {
      SentOnSomeConnection(ids, h.past);
      EveryConnection(ids, h.past);
      LegalIsCoherent(ids, h.past);
      StepKeepsSentOnSome(ids, ViewOf(h.past), Connections(h.past), h.event);
    }
  }

  /** A completion is only ever sent once the request is known accepted, and so is a response
      heard. An accepted request was sent, unless on every connection opened before the
      acceptance the first write broke or was cut short. */
  lemma MessagesInOrder(ids: Ids, h: History)
    requires Legal(ids, h)
    ensures ViewOf(h).completionSent || ViewOf(h).response.Some? ==> ViewOf(h).accepted
    ensures ViewOf(h).requestSent <==>
      !forall c <- Connections(h) | !c.resumes :: c.openingCut || c.written == []
    ensures ViewOf(h).accepted && !ViewOf(h).openingCut ==> ViewOf(h).requestSent
    ensures ViewOf(h).accepted && !ViewOf(h).requestSent ==>
      ViewOf(h).requestText.Some? && Happened(h, CutShort(ViewOf(h).requestText.value))
  {
    LegalIsCoherent(ids, h);
    SentOnSomeConnection(ids, h);
    if ViewOf(h).requestSent {
      var i :| 0 <= i < |Connections(h)| && CarriesRequest(Connections(h)[i]);
      assert Connections(h)[i] in Connections(h);
    }
    AcceptedUnsentIsCut(ids, h);
  }

  /** Acceptance without a sent request is due to a first write that was cut short. */
  ghost predicate UnsentIsCut(v: View, h: History) {
    !v.requestSent && (v.accepted || (v.socket.Open? && v.socket.openingCut)) ==>
      v.requestText.Some? && Happened(h, CutShort(v.requestText.value))
  }

  lemma StepKeepsUnsentCut(ids: Ids, v: View, past: History, event: Event)
    requires Coherent(ids, v) && Allowed(ids, v, event) && UnsentIsCut(v, past)
    ensures UnsentIsCut(Advance(v, event), After(past, event))
  {
    match event
    case Began(_, _) =>
    case Wrote(_) =>
    case CutShort(_) =>
    case Got(_) =>
    case _ => QuietChanges(v, event);
  }

  lemma {:induction false} AcceptedUnsentIsCut(ids: Ids, h: History)
    requires Legal(ids, h)
    ensures UnsentIsCut(ViewOf(h), h)
  {
    if h.After? {
      AcceptedUnsentIsCut(ids, h.past);
      LegalIsCoherent(ids, h.past);
      StepKeepsUnsentCut(ids, ViewOf(h.past), h.past, h.event);
    }
  }

  /** That exception is real too: the request is cut short, and a handoff on the same socket
      hears that the relay accepted it. */
  function CutRequest(ids: Ids, request: OutgoingFrame, completion: OutgoingFrame): History {
    var asked := After(After(After(Start, Began(StartRequest(request), NORMAL_RETRY_POLICY)), Opened), CutShort(request));
    After(After(After(asked, Began(HandOff(completion), BRIEF_RETRY_POLICY)), Got(Ack(ids, RequestMessage))),
          Wrote(completion))
  }

  /** A schedule under which the client goes through that history. */
  function CutRequestRun(ids: Ids, kind: ConnectionKind): Run {
    Run(k => Tick(0, Connected, true, Text(Ack(ids, RequestMessage)), k == 1), 4, ids, kind, Moment(0, 0))
  }

  lemma CutRequestIsARun(ids: Ids, kind: ConnectionKind, request: OutgoingFrame, completion: OutgoingFrame)
    ensures Scheduled(CutRequestRun(ids, kind), CutRequest(ids, request, completion))
  {
    var run := CutRequestRun(ids, kind);
    assert MomentOf(run, Start) == Moment(0, 0);
    var h1 := After(Start, Began(StartRequest(request), NORMAL_RETRY_POLICY));
    HappensNext(run, h1, Moment(0, 0), Opened);
    var h2 := After(h1, Opened);
    HappensNext(run, h2, Moment(1, 0), CutShort(request));
    var h3 := After(h2, CutShort(request));
    HappensNext(run, h3, Moment(2, 0), Began(HandOff(completion), BRIEF_RETRY_POLICY));
    var h4 := After(h3, Began(HandOff(completion), BRIEF_RETRY_POLICY));
    HappensNext(run, h4, Moment(2, 0), Got(Ack(ids, RequestMessage)));
    HappensNext(run, After(h4, Got(Ack(ids, RequestMessage))), Moment(3, 0), Wrote(completion));
  }

  lemma CutRequestHappens(ids: Ids, request: OutgoingFrame, completion: OutgoingFrame)
    requires IsSend(request, RequestMessage) && request.ids == ids
    requires IsSend(completion, CompletionMessage) && completion.ids == ids
    ensures var h := CutRequest(ids, request, completion);
      Legal(ids, h) && ViewOf(h).accepted && ViewOf(h).completionSent && !ViewOf(h).requestSent
  {
    var h1 := After(Start, Began(StartRequest(request), NORMAL_RETRY_POLICY));
    assert ViewOf(Start) == INITIAL_VIEW;
    assert Legal(ids, h1);
    var h2 := After(h1, Opened);
    assert Legal(ids, h2);
    var h3 := After(h2, CutShort(request));
    assert Legal(ids, h3);
    var h4 := After(h3, Began(HandOff(completion), BRIEF_RETRY_POLICY));
    assert Legal(ids, h4);
    var h5 := After(h4, Got(Ack(ids, RequestMessage)));
    assert Legal(ids, h5);
  }

  /** On the latest connection, a resume or a renewed copy of the completion was cut short
      after the completion had been sent. */
  ghost predicate ReplayCut(ids: Ids, h: History, completion: OutgoingFrame) {
    h.After? && match h.event
      case Opened => false
      case CutShort(frame) =>
        || ReplayCut(ids, h.past, completion)
        || (frame in {Resume(ids), completion} && Happened(h.past, Wrote(completion)))
      case _ => ReplayCut(ids, h.past, completion)
  }

  /** The state of the completion, read off the events. */
  ghost predicate ReadsOff(ids: Ids, v: View, h: History, completion: OutgoingFrame) {
    && (v.completionSent <==> Happened(h, Wrote(completion)))
    && (v.socket.Open? ==> (v.socket.replayCut <==> ReplayCut(ids, h, completion)))
  }

  lemma CutReadsOff(ids: Ids, v: View, past: History, frame: OutgoingFrame, completion: OutgoingFrame)
    requires Coherent(ids, v) && Due(ids, v) == Some(frame) && ReadsOff(ids, v, past, completion)
    requires v.completionText in {None, Some(completion)}
    ensures ReadsOff(ids, AfterCut(v, frame), After(past, CutShort(frame)), completion)
  {
    assert frame.Resume? ==> frame == Resume(ids);
  }

  lemma StepReadsOff(ids: Ids, v: View, past: History, event: Event, completion: OutgoingFrame)
    requires Coherent(ids, v) && Allowed(ids, v, event) && IsSend(completion, CompletionMessage)
    requires v.completionText in {None, Some(completion)}
    requires ReadsOff(ids, v, past, completion)
    ensures ReadsOff(ids, Advance(v, event), After(past, event), completion)
  {
    match event
    case CutShort(frame) => CutReadsOff(ids, v, past, frame, completion);
    case Wrote(_) =>
    case Began(_, _) =>
    case Got(_) =>
    case _ => QuietChanges(v, event);
  }

  lemma {:induction false} CompletionReadsOff(ids: Ids, h: History, completion: OutgoingFrame)
    requires Legal(ids, h) && IsSend(completion, CompletionMessage)
    requires ViewOf(h).completionText in {None, Some(completion)}
    ensures ReadsOff(ids, ViewOf(h), h, completion)
  {
    if h.After? {
      LegalIsCoherent(ids, h.past);
      StepPersists(ids, ViewOf(h.past), h.event);
      CompletionReadsOff(ids, h.past, completion);
      StepReadsOff(ids, ViewOf(h.past), h.past, h.event, completion);
    }
  }

  /** While the client listens after the completion has been sent once, that completion is on
      the very socket it listens on, except exactly if there a resume or a renewed copy of it
      was cut short. */
  lemma CompletionIsOnTheSocket(ids: Ids, h: History)
    requires Legal(ids, h)
    requires ViewOf(h).phase != Idle && ViewOf(h).completionSent && Listening(ids, ViewOf(h))
    ensures ViewOf(h).completionText.Some?
    ensures CompletionWritten(ViewOf(h)) <==> !ReplayCut(ids, h, ViewOf(h).completionText.value)
  {
    LegalIsCoherent(ids, h);
    CompletionReadsOff(ids, h, ViewOf(h).completionText.value);
  }

  /** The events after which a dropped future leaves a connection without its completion:
      the request is accepted and the completion sent, */
  function HandedOnce(ids: Ids, request: OutgoingFrame, completion: OutgoingFrame): History {
    var asked := After(After(After(Start, Began(StartRequest(request), NORMAL_RETRY_POLICY)), Opened), Wrote(request));
    After(After(After(asked, Got(Ack(ids, RequestMessage))), Began(HandOff(completion), NORMAL_RETRY_POLICY)),
          Wrote(completion))
  }

  /** then the connection is lost, and the client sleeps before its retry, */
  function Rested(ids: Ids, request: OutgoingFrame, completion: OutgoingFrame): History {
    After(After(After(HandedOnce(ids, request, completion), Lost(Gone)), Failure(0)), Slept(1000, 1000))
  }

  /** and the future is dropped while the retry replays the completion. */
  function CutReplay(ids: Ids, request: OutgoingFrame, completion: OutgoingFrame): History {
    var replaying := After(After(After(Rested(ids, request, completion), Opened), Wrote(Resume(ids))), CutShort(completion));
    After(replaying, Began(HandOff(completion), BRIEF_RETRY_POLICY))
  }

  function CutReplayRun(ids: Ids, kind: ConnectionKind): Run {
    Run(k => Tick(0, Connected, true, if k == 4 then Gone else Text(Ack(ids, RequestMessage)), k == 8), 9, ids, kind,
        Moment(0, 0))
  }

  lemma HandedOnceIsARun(ids: Ids, kind: ConnectionKind, request: OutgoingFrame, completion: OutgoingFrame)
    ensures var run, h := CutReplayRun(ids, kind), HandedOnce(ids, request, completion);
      Scheduled(run, h) && MomentOf(run, h) == Moment(4, 0)
  {
    var run := CutReplayRun(ids, kind);
    assert MomentOf(run, Start) == Moment(0, 0);
    var h1 := After(Start, Began(StartRequest(request), NORMAL_RETRY_POLICY));
    HappensNext(run, h1, Moment(0, 0), Opened);
    var h2 := After(h1, Opened);
    HappensNext(run, h2, Moment(1, 0), Wrote(request));
    var h3 := After(h2, Wrote(request));
    HappensNext(run, h3, Moment(2, 0), Got(Ack(ids, RequestMessage)));
    var h4 := After(h3, Got(Ack(ids, RequestMessage)));
    HappensNext(run, h4, Moment(3, 0), Began(HandOff(completion), NORMAL_RETRY_POLICY));
    HappensNext(run, After(h4, Began(HandOff(completion), NORMAL_RETRY_POLICY)), Moment(3, 0), Wrote(completion));
  }

  /** After the first handoff the connection is lost, and the client sleeps before its retry. */
  lemma RestedIsARun(ids: Ids, kind: ConnectionKind, request: OutgoingFrame, completion: OutgoingFrame)
    ensures var run, h := CutReplayRun(ids, kind), Rested(ids, request, completion);
      Scheduled(run, h) && MomentOf(run, h) == Moment(6, 1000)
  {
    HandedOnceIsARun(ids, kind, request, completion);
    var run, h6 := CutReplayRun(ids, kind), HandedOnce(ids, request, completion);
    HappensNext(run, h6, Moment(4, 0), Lost(Gone));
    var h7 := After(h6, Lost(Gone));
    HappensNext(run, h7, Moment(5, 0), Failure(0));
    HappensNext(run, After(h7, Failure(0)), Moment(5, 0), Slept(1000, 1000));
  }

  lemma CutReplayIsARun(ids: Ids, kind: ConnectionKind, request: OutgoingFrame, completion: OutgoingFrame)
    ensures Scheduled(CutReplayRun(ids, kind), CutReplay(ids, request, completion))
  {
    RestedIsARun(ids, kind, request, completion);
    var run, h9 := CutReplayRun(ids, kind), Rested(ids, request, completion);
    HappensNext(run, h9, Moment(6, 1000), Opened);
    var h10 := After(h9, Opened);
    HappensNext(run, h10, Moment(7, 1000), Wrote(Resume(ids)));
    var h11 := After(h10, Wrote(Resume(ids)));
    HappensNext(run, h11, Moment(8, 1000), CutShort(completion));
    HappensNext(run, After(h11, CutShort(completion)), Moment(9, 1000), Began(HandOff(completion), BRIEF_RETRY_POLICY));
  }

  lemma HandedOnceHappens(ids: Ids, request: OutgoingFrame, completion: OutgoingFrame)
    requires IsSend(request, RequestMessage) && request.ids == ids
    requires IsSend(completion, CompletionMessage) && completion.ids == ids
    ensures var h := HandedOnce(ids, request, completion);
      && Legal(ids, h)
      && ViewOf(h) == View(Completing, NORMAL_RETRY_POLICY, 0, None, Going, Some(request), Some(completion),
                           true, true, true, Open([request, completion], false, false), false, None, false)
  {
    var h1 := After(Start, Began(StartRequest(request), NORMAL_RETRY_POLICY));
    assert ViewOf(Start) == INITIAL_VIEW;
    assert Legal(ids, h1);
    var h2 := After(h1, Opened);
    assert Legal(ids, h2);
    var h3 := After(h2, Wrote(request));
    assert Legal(ids, h3);
    assert ViewOf(h3).socket.written == [request];
    var h4 := After(h3, Got(Ack(ids, RequestMessage)));
    assert Legal(ids, h4);
    var h5 := After(h4, Began(HandOff(completion), NORMAL_RETRY_POLICY));
    assert Legal(ids, h5);
    assert ViewOf(h5).socket.written == [request];
    var h6 := After(h5, Wrote(completion));
    assert ViewOf(h6).socket.written == [request, completion];
  }

  /** The exception is real: the next handoff listens on a socket without the completion. */
  lemma CutReplayHappens(ids: Ids, request: OutgoingFrame, completion: OutgoingFrame)
    requires IsSend(request, RequestMessage) && request.ids == ids
    requires IsSend(completion, CompletionMessage) && completion.ids == ids
    ensures var h := CutReplay(ids, request, completion);
      && Legal(ids, h)
      && ViewOf(h).phase == Completing && ViewOf(h).completionSent && Listening(ids, ViewOf(h))
      && !CompletionWritten(ViewOf(h)) && ReplayCut(ids, h, completion)
  {
    HandedOnceHappens(ids, request, completion);
    var h7 := After(HandedOnce(ids, request, completion), Lost(Gone));
    assert Legal(ids, h7);
    var h8 := After(h7, Failure(0));
    assert Legal(ids, h8);
    var h9 := After(h8, Slept(1000, 1000));
    assert Legal(ids, h9);
    var h10 := After(h9, Opened);
    assert Legal(ids, h10);
    var h11 := After(h10, Wrote(Resume(ids)));
    assert Legal(ids, h11);
    assert ViewOf(h11).socket.written == [Resume(ids)];
    assert Happened(h7, Wrote(completion));
    assert Happened(h8, Wrote(completion));
    assert Happened(h9, Wrote(completion));
    assert Happened(h10, Wrote(completion));
    assert Happened(h11, Wrote(completion));
    var h12 := After(h11, CutShort(completion));
    assert Legal(ids, h12) && ReplayCut(ids, h12, completion);
  }

  lemma ResponseMakesAckDue(ids: Ids, v: View, response: IncomingFrame)
    requires Coherent(ids, v) && Allowed(ids, v, Got(response)) && IsResponse(response)
    ensures Due(ids, AfterFrame(v, response)) == Some(Acknowledge(ids, ResponseMessage))
    ensures AfterFrame(v, response).socket.Open?
  {
  }

  /** A response is acknowledged before anything else happens. */
  lemma ResponseIsAcknowledgedFirst(ids: Ids, past: History, response: IncomingFrame, next: Event)
    requires IsResponse(response)
    requires Legal(ids, After(After(past, Got(response)), next))
    ensures var ack := Acknowledge(ids, ResponseMessage);
      next in {Wrote(ack), WriteBroke(ack), CutShort(ack)}
  {
    var h := After(past, Got(response));
    assert Legal(ids, h) && Legal(ids, past);
    LegalIsCoherent(ids, past);
    ResponseMakesAckDue(ids, ViewOf(past), response);
    assert ViewOf(h) == AfterFrame(ViewOf(past), response) && Allowed(ids, ViewOf(h), next);
    OnlyTheDueFrame(ids, ViewOf(h), next);
  }

  lemma OnlyTheDueFrame(ids: Ids, v: View, next: Event)
    requires Running(v) && v.socket.Open? && v.owesAck && Due(ids, v).Some?
    ensures Allowed(ids, v, next) ==>
      var frame := Due(ids, v).value;
      next in {Wrote(frame), WriteBroke(frame), CutShort(frame)}
  {
  }

  /** The payloads of all response frames heard while the request was being made. */
  function Payloads(h: History): seq<Value> {
    match h
    case Start => []
    case After(past, event) =>
      Payloads(past) + if event.Got? && IsResponse(event.incoming) && ViewOf(past).phase == Requesting
                       then [event.incoming.payload] else []
  }

  lemma StepKeepsFirstPayload(v: View, event: Event)
    ensures Advance(v, event).response ==
      if v.response == None && v.phase == Requesting && event.Got? && IsResponse(event.incoming)
      then Some(event.incoming.payload) else v.response
  {
    match event
    case Got(_) =>
    case _ =>
  }

  lemma {:induction false} FirstPayloadIsKept(h: History)
    ensures ViewOf(h).response == if Payloads(h) == [] then None else Some(Payloads(h)[0])
  {
    if h.After? {
      FirstPayloadIsKept(h.past);
      StepKeepsFirstPayload(ViewOf(h.past), h.event);
    }
  }

  /** The payloads of all response frames that the relay delivered, by the schedule, wherever
      the client listened while the request was being made. */
  function Responses(run: Run, h: History): seq<Value> {
    match h
    case Start => []
    case After(past, event) =>
      var at := MomentOf(run, past).at;
      var arrival := Yielded(run.script, run.quiet, at);
      Responses(run, past) +
        if HearsThen(run, past, event) && ViewOf(past).phase == Requesting
           && arrival.Text? && AddressedTo(arrival.frame, run.ids) && IsResponse(arrival.frame)
        then [arrival.frame.payload] else []
  }

  /** The client listened there, and its future wasn't dropped. */
  predicate HearsThen(run: Run, past: History, event: Event) {
    && Running(ViewOf(past)) && Listening(run.ids, ViewOf(past))
    && !IsNote(event) && !event.Polled? && !run.script(MomentOf(run, past).at).dropped
  }

  /** A client that listens records what the relay delivers, whatever it is, or its call ends. */
  lemma NothingIsMissed(run: Run, past: History, event: Event)
    requires Legal(run.ids, After(past, event)) && Scheduled(run, After(past, event))
    requires Running(ViewOf(past)) && Listening(run.ids, ViewOf(past))
    ensures HearsThen(run, past, event) ==>
      event == EventOf(run.ids, Yielded(run.script, run.quiet, MomentOf(run, past).at))
    ensures !HearsThen(run, past, event) ==>
      || ((event == Stopped || event.Polled?) && ViewOf(After(past, event)).phase == Idle)
      || event.Began?
  {
    LegalIsCoherent(run.ids, past);
  }

  /** What counts as the responses heard is exactly what the relay delivered to the listening
      client, so the first one heard is the first one delivered. */
  lemma {:induction false} PayloadsAreDelivered(run: Run, h: History)
    requires Legal(run.ids, h) && Scheduled(run, h)
    ensures Payloads(h) == Responses(run, h)
    ensures ViewOf(h).response == if Responses(run, h) == [] then None else Some(Responses(run, h)[0])
  {
    FirstPayloadIsKept(h);
    if h.After? {
      PayloadsAreDelivered(run, h.past);
      LegalIsCoherent(run.ids, h.past);
      if Running(ViewOf(h.past)) && Listening(run.ids, ViewOf(h.past)) {
        NothingIsMissed(run, h.past, h.event);
      }
    }
  }

  /** Up to its end a call is never dropped: what ends it otherwise was reached undropped. */
  lemma {:induction false} CallIsUndropped(run: Run, begun: History, h: History)
    requires Legal(run.ids, h) && Scheduled(run, h) && Continues(begun, h)
    requires h == begun || !(Cut(h) || h.event.Polled?)
    ensures forall k | MomentOf(run, begun).at <= k < MomentOf(run, h).at :: !run.script(k).dropped
  {
    if h != begun {
      WithinCall(run.ids, ViewOf(h.past), h.event);
      if h.past != begun && (Cut(h.past) || h.past.event.Polled?) {
        CutIsIdle(h.past);
        assert false;
      }
      CallIsUndropped(run, begun, h.past);
    }
  }

  // ---- Retries ----------------------------------------------------------

  /** What is to be counted as a failure: an attempt that came to nothing, a write that
      broke, and a socket that was lost. */
  predicate IsLoss(event: Event) {
    event.Unopened? || event.WriteBroke? || event.Lost?
  }

  /** How long the client is to wait after a loss. */
  function DelayOf(loss: Event, policy: RetryPolicy): nat {
    if loss.Lost? then DelayAfter(loss.arrival, policy) else policy.retryDelay
  }

  /** The times of the consecutive failures: those since a call began or the relay was heard. */
  function Streak(h: History): seq<nat> {
    if h.Start? then [] else LongerStreak(Streak(h.past), h.event)
  }

  function LongerStreak(streak: seq<nat>, event: Event): seq<nat> {
    match event
    case Began(_, _) => []
    case Got(_) => []
    case Alive => []
    case Failure(now) => streak + [now]
    case _ => streak
  }

  predicate ReadsStreak(v: View, streak: seq<nat>) {
    && v.failures == |streak|
    && v.firstFailure == if streak == [] then None else Some(streak[0])
  }

  lemma StepReadsStreak(v: View, event: Event, streak: seq<nat>)
    requires ReadsStreak(v, streak)
    ensures ReadsStreak(Advance(v, event), LongerStreak(streak, event))
  {
  }

  lemma {:induction false} StreakReadsOff(h: History)
    ensures ReadsStreak(ViewOf(h), Streak(h))
  {
    if h.After? {
      StreakReadsOff(h.past);
      StepReadsStreak(ViewOf(h.past), h.event, Streak(h.past));
    }
  }

  /** A loss is counted before anything else happens. */
  lemma LossIsCountedNext(ids: Ids, past: History, loss: Event, next: Event)
    requires IsLoss(loss) && Legal(ids, After(After(past, loss), next))
    ensures next.Failure?
  {
    assert Legal(ids, After(past, loss));
  }

  /** No retry is left at the limit of consecutive failures or once the first of them is
      `failureTimeout` ago. */
  predicate Exhausted(policy: RetryPolicy, streak: seq<nat>, now: nat)
    requires streak != []
  {
    |streak| >= policy.maximumFailures || now >= streak[0] + policy.failureTimeout
  }

  /** After a failure the call is over exactly if no retry is left. Otherwise it sleeps as
      long as the loss asks for, but not past that time limit. */
  lemma FailureIsRetriedOrNot(ids: Ids, past: History, loss: Event, now: nat, next: Event)
    requires IsLoss(loss) && Legal(ids, After(After(After(past, loss), Failure(now)), next))
    ensures var streak, policy := Streak(past) + [now], ViewOf(past).policy;
      if Exhausted(policy, streak, now) then next.Began? || next.Polled?
      else
        var left := streak[0] + policy.failureTimeout - now;
        || next == Stopped
        || (next.Slept? && next.duration == if DelayOf(loss, policy) < left then DelayOf(loss, policy) else left)
  {
    var lost := After(past, loss);
    assert Legal(ids, After(lost, Failure(now))) && Legal(ids, lost) && Legal(ids, past);
    StreakReadsOff(past);
    LegalIsCoherent(ids, past);
  }

  lemma SpentChanges(ids: Ids, v: View, event: Event)
    requires Coherent(ids, v) && Allowed(ids, v, event) && !v.stage.Spent? && Advance(v, event).stage.Spent?
    ensures event.Failure? || event.Slept?
    ensures var w, now := Advance(v, event), if event.Failure? then event.now else event.woken;
      && w.firstFailure.Some? && w.failures > 0
      && (w.failures >= v.policy.maximumFailures || now >= w.firstFailure.value + v.policy.failureTimeout)
  {
    match event
    case Failure(_) =>
    case Slept(_, _) =>
    case Wrote(_) =>
    case Got(_) =>
    case CutShort(_) =>
    case _ =>
  }

  /** A call gives up only when no retry is left. */
  lemma GivesUpForCause(ids: Ids, past: History, event: Event)
    requires Legal(ids, After(past, event)) && !ViewOf(past).stage.Spent?
    requires ViewOf(After(past, event)).stage.Spent?
    ensures event.Failure? || event.Slept?
    ensures var streak := Streak(After(past, event));
      streak != [] && Exhausted(ViewOf(past).policy, streak, if event.Failure? then event.now else event.woken)
  {
    LegalIsCoherent(ids, past);
    SpentChanges(ids, ViewOf(past), event);
    StreakReadsOff(After(past, event));
  }

  /** Failures behind it and no socket: only a sleep brings a call to that and lets it go on. */
  lemma OnlySleepGoesOn(ids: Ids, v: View, event: Event)
    requires Coherent(ids, v) && Allowed(ids, v, event)
    requires !(Running(v) && v.socket.Closed? && v.failures > 0)
    ensures var w := Advance(v, event);
      Running(w) && w.socket.Closed? && w.failures > 0 ==>
        event.Slept? && w.failures < w.policy.maximumFailures && w.firstFailure.Some?
        && event.woken < w.firstFailure.value + w.policy.failureTimeout
  {
  }

  lemma AttemptIsDecisive(ids: Ids, v: View, event: Event)
    requires Allowed(ids, v, event) && Running(v) && v.socket.Closed?
    ensures event.Began? || event.Polled? || event == Stopped || IsAttempt(event)
    ensures !event.Began? ==>
      var w := Advance(v, event); !(Running(w) && w.socket.Closed?)
  {
  }

  lemma RetryFollowsSleep(ids: Ids, past: History)
    requires Legal(ids, past)
    requires Running(ViewOf(past)) && ViewOf(past).socket.Closed? && ViewOf(past).failures > 0
    ensures past.After? && past.event.Slept?
    ensures ViewOf(past).failures < ViewOf(past).policy.maximumFailures && ViewOf(past).firstFailure.Some?
    ensures past.event.woken < ViewOf(past).firstFailure.value + ViewOf(past).policy.failureTimeout
  {
    var v := ViewOf(past.past);
    LegalIsCoherent(ids, past.past);
    if Running(v) && v.socket.Closed? {
      AttemptIsDecisive(ids, v, past.event);
    } else {
      OnlySleepGoesOn(ids, v, past.event);
    }
  }

  /** Every retry starts with retries left: below the limit, and before the time limit. */
  lemma RetriesStartInTime(run: Run, past: History, attempt: Event)
    requires Legal(run.ids, After(past, attempt)) && Scheduled(run, After(past, attempt))
    requires IsAttempt(attempt) && Streak(past) != []
    ensures past.After? && past.event.Slept?
    ensures !Exhausted(ViewOf(past).policy, Streak(past), MomentOf(run, past).clock)
  {
    StreakReadsOff(past);
    RetryFollowsSleep(run.ids, past);
    assert Scheduled(run, past) && Fits(run, MomentOf(run, past.past), past.event);
  }

  // ---- How much a client does -------------------------------------------

  function Count(h: History, f: Event -> bool): nat {
    if h.Start? then 0 else Count(h.past, f) + if f(h.event) then 1 else 0
  }

  const IS_CALL := (event: Event) => event.Began?
  const IS_ATTEMPT := (event: Event) => IsAttempt(event)
  const IS_LOSS := (event: Event) => IsLoss(event)
  const IS_FAILURE := (event: Event) => event.Failure?
  const IS_TRAFFIC := (event: Event) => event.Got? || event.Alive?

  lemma HitByLoss(ids: Ids, v: View, event: Event)
    requires Allowed(ids, v, event)
    ensures Advance(v, event).stage.Hit? <==> IsLoss(event)
    ensures v.stage.Hit? <==> event.Failure?
  {
  }

  /** Every loss is counted once, before the next event. */
  lemma {:induction false} LossesAreCounted(ids: Ids, h: History)
    requires Legal(ids, h)
    ensures Count(h, IS_LOSS) == Count(h, IS_FAILURE) + if ViewOf(h).stage.Hit? then 1 else 0
  {
    if h.After? {
      LossesAreCounted(ids, h.past);
      HitByLoss(ids, ViewOf(h.past), h.event);
    }
  }

  ghost predicate LimitedTo(h: History, maximum: nat) {
    h.After? ==> LimitedTo(h.past, maximum) && (h.event.Began? ==> h.event.policy.maximumFailures <= maximum)
  }

  /** Every stretch between calls and valid traffic has at most `maximum` failures. */
  predicate FewFailures(v: View, calls: nat, traffic: nat, failures: nat, maximum: nat) {
    && v.failures <= v.policy.maximumFailures <= maximum
    && (calls == 0 ==> v.phase == Idle && failures == 0)
    && (calls > 0 ==> failures <= maximum * (traffic + calls - 1) + v.failures)
  }

  lemma StepKeepsFewFailures(ids: Ids, v: View, event: Event, calls: nat, traffic: nat, failures: nat, maximum: nat)
    requires Coherent(ids, Advance(v, event)) && Allowed(ids, v, event)
    requires FewFailures(v, calls, traffic, failures, maximum)
    requires event.Began? ==> event.policy.maximumFailures <= maximum
    ensures FewFailures(Advance(v, event), calls + if IS_CALL(event) then 1 else 0,
                        traffic + if IS_TRAFFIC(event) then 1 else 0,
                        failures + if IS_FAILURE(event) then 1 else 0, maximum)
  {
    if calls > 0 {
      assert maximum * (traffic + calls) == maximum * (traffic + calls - 1) + maximum;
    }
  }

  lemma {:induction false} StretchesAreBounded(ids: Ids, h: History, maximum: nat)
    requires Legal(ids, h) && LimitedTo(h, maximum)
    ensures FewFailures(ViewOf(h), Count(h, IS_CALL), Count(h, IS_TRAFFIC), Count(h, IS_FAILURE), maximum)
  {
    if h.After? {
      StretchesAreBounded(ids, h.past, maximum);
      LegalIsCoherent(ids, h);
      StepKeepsFewFailures(ids, ViewOf(h.past), h.event, Count(h.past, IS_CALL), Count(h.past, IS_TRAFFIC),
                           Count(h.past, IS_FAILURE), maximum);
    }
  }

  /** Between two valid frames there are at most `maximum` losses, failed attempts, broken writes
      and lost sockets together, and so over a whole run. */
  lemma FailuresAreBounded(ids: Ids, h: History, maximum: nat)
    requires Legal(ids, h) && LimitedTo(h, maximum)
    ensures Count(h, IS_FAILURE) <= maximum * (Count(h, IS_TRAFFIC) + Count(h, IS_CALL))
    ensures Count(h, IS_LOSS) <= maximum * (Count(h, IS_TRAFFIC) + Count(h, IS_CALL))
    ensures |Streak(h)| <= ViewOf(h).policy.maximumFailures
  {
    StreakReadsOff(h);
    StretchesAreBounded(ids, h, maximum);
    LossesAreCounted(ids, h);
    LegalIsCoherent(ids, h);
    HitIsInCall(ids, h);
    LastStretch(Count(h, IS_CALL), Count(h, IS_TRAFFIC), maximum);
  }

  lemma {:induction false} HitIsInCall(ids: Ids, h: History)
    requires Legal(ids, h)
    ensures ViewOf(h).stage.Hit? ==> ViewOf(h).phase != Idle
  {
    if h.After? {
      HitByLoss(ids, ViewOf(h.past), h.event);
    }
  }

  lemma LastStretch(calls: nat, traffic: nat, maximum: nat)
    ensures calls > 0 ==> maximum * (traffic + calls) == maximum * (traffic + calls - 1) + maximum
    ensures maximum * (traffic + calls) >= 0
  {
  }

  /** A connection attempt follows each call and each failure, and no more. */
  predicate FewAttempts(v: View, calls: nat, failures: nat, attempts: nat) {
    && (calls == 0 ==> v.phase == Idle && v.socket.Closed? && attempts == 0)
    && (calls > 0 ==>
          attempts + (if v.phase != Idle && v.socket.Closed? && !v.stage.Hit? then 1 else 0) <= failures + calls)
  }

  lemma StepKeepsFewAttempts(ids: Ids, v: View, event: Event, calls: nat, failures: nat, attempts: nat)
    requires Coherent(ids, v) && Allowed(ids, v, event) && FewAttempts(v, calls, failures, attempts)
    ensures FewAttempts(Advance(v, event), calls + if IS_CALL(event) then 1 else 0,
                        failures + if IS_FAILURE(event) then 1 else 0,
                        attempts + if IS_ATTEMPT(event) then 1 else 0)
  {
  }

  /** A connection that carries no traffic never refreshes the budget: each attempt after the
      first of a call is paid for by a failure. */
  lemma {:induction false} AttemptsFollowFailures(ids: Ids, h: History)
    requires Legal(ids, h)
    ensures FewAttempts(ViewOf(h), Count(h, IS_CALL), Count(h, IS_FAILURE), Count(h, IS_ATTEMPT))
  {
    if h.After? {
      AttemptsFollowFailures(ids, h.past);
      LegalIsCoherent(ids, h.past);
      StepKeepsFewAttempts(ids, ViewOf(h.past), h.event, Count(h.past, IS_CALL), Count(h.past, IS_FAILURE),
                           Count(h.past, IS_ATTEMPT));
    }
  }

  lemma AttemptsAtMost(ids: Ids, h: History)
    requires Legal(ids, h)
    ensures Count(h, IS_ATTEMPT) <= Count(h, IS_FAILURE) + Count(h, IS_CALL)
  {
    AttemptsFollowFailures(ids, h);
  }

  /** Over a whole run the attempts to connect, successful or not, are bounded by the calls and
      the valid traffic alone. */
  lemma AttemptsAreBounded(ids: Ids, h: History, maximum: nat)
    requires Legal(ids, h) && LimitedTo(h, maximum)
    ensures Count(h, IS_ATTEMPT) <= (maximum + 1) * Count(h, IS_CALL) + maximum * Count(h, IS_TRAFFIC)
  {
    FailuresAreBounded(ids, h, maximum);
    AttemptsAtMost(ids, h);
    AddBounds(Count(h, IS_ATTEMPT), Count(h, IS_FAILURE), Count(h, IS_CALL), Count(h, IS_TRAFFIC), maximum);
  }

  lemma AddBounds(attempts: nat, failures: nat, calls: nat, traffic: nat, maximum: nat)
    requires attempts <= failures + calls && failures <= maximum * (traffic + calls)
    ensures attempts <= (maximum + 1) * calls + maximum * traffic
  {
    assert maximum * (traffic + calls) == maximum * traffic + maximum * calls;
  }

  // ---- What the client makes of what it sees ----------------------------

  /** The error of a connection attempt that ends the exchange, by what came of it. */
  predicate RefusedFor(kind: ConnectionKind, outcome: ConnectOutcome, error: RelayError) {
    match outcome
    case NotUpgraded(status) =>
      && status < 500
      && error == if status == 403 && kind.ClientConnection? then ClientSuspended(403) else UnexpectedStatus(status)
    case ProxyRejects(status) => !(500 <= status <= 599) && error == ProxyRejected(status)
    case _ => false
  }

  lemma AttemptMeans(kind: ConnectionKind, outcome: ConnectOutcome)
    ensures AttemptOf(kind, outcome) == Opened <==> outcome == Connected
    ensures AttemptOf(kind, outcome) == Refused(outcome) <==>
      || (outcome.NotUpgraded? && outcome.status < 500)
      || (outcome.ProxyRejects? && !(500 <= outcome.status <= 599))
    ensures forall error :: FatalConnect(kind, outcome) == Some(error) <==> RefusedFor(kind, outcome, error)
  {
  }

  /** The error of an arrival that ends the exchange: a frame for another client or request, an error
      that isn't to be retried, an inactive exchange, nonsense, and two close codes. */
  predicate EndedFor(ids: Ids, arrival: Arrival, error: RelayError) {
    match arrival
    case Text(Error(clientId, requestId, code, text, retryable, _)) =>
      if clientId in {None, Some(ids.clientId)} && requestId in {None, Some(ids.requestId)}
      then !retryable && error == RelayRejected(code, text)
      else error == ProtocolViolation
    case Text(Inactive(frameIds, kind)) => error == if frameIds == ids then ExchangeInactive(kind) else ProtocolViolation
    case Text(frame) => frame.ids != ids && error == ProtocolViolation
    case Malformed => error == InvalidJson
    case Binary => error == ProtocolViolation
    case CloseFrame(code) => (code == 4002 || code == 4003) && error == ClientSuspended(code)
    case Control => false
    case Gone => false
  }

  lemma ArrivalMeans(ids: Ids, arrival: Arrival)
    ensures forall error :: Fatal(ids, arrival) == Some(error) <==> EndedFor(ids, arrival, error)
    ensures EventOf(ids, arrival) == Alive <==> arrival == Control
    ensures forall frame :: EventOf(ids, arrival) == Got(frame) <==>
      arrival == Text(frame) && !frame.Error? && !frame.Inactive? && frame.ids == ids
    ensures EventOf(ids, arrival) in {Alive, Lost(arrival), Ended(arrival)} || EventOf(ids, arrival).Got?
    ensures EventOf(ids, arrival) == Ended(arrival) <==> exists error :: EndedFor(ids, arrival, error)
  {
    match arrival
    case Text(frame) =>
      if Fatal(ids, arrival).Some? {
        assert EndedFor(ids, arrival, Fatal(ids, arrival).value);
      }
    case Malformed => assert EndedFor(ids, arrival, InvalidJson);
    case Binary => assert EndedFor(ids, arrival, ProtocolViolation);
    case CloseFrame(code) => assert EndedFor(ids, arrival, ClientSuspended(code)) <==> code == 4002 || code == 4003;
    case Control =>
    case Gone =>
  }

  /** A loss is waited out as long as a retryable error asks for, a second if it doesn't say, and
      as long as the policy says otherwise. */
  lemma DelayMeans(loss: Event, policy: RetryPolicy)
    ensures DelayOf(loss, policy) ==
      match loss
      case Lost(Text(Error(_, _, _, _, _, Some(delay)))) => delay
      case Lost(Text(Error(_, _, _, _, _, None))) => 1000
      case _ => policy.retryDelay
  {
  }

  /** An event that shows that the relay has the request. */
  predicate ShowsRequest(phase: Phase, event: Event) {
    event.Got? && match event.incoming
      case Ack(_, kind) => kind == RequestMessage
      case Receipt(_, kind) => kind == RequestMessage
      case Message(_, kind, _) => kind == ResponseMessage
      case State(_, _, request, _, _) => phase == Requesting && (request == Accepted || request == Delivered)
      case _ => false
  }

  /** An event that shows that the relay has the completion. */
  predicate ShowsCompletion(event: Event) {
    event.Got? && match event.incoming
      case Ack(_, kind) => kind == CompletionMessage
      case State(_, _, _, _, completion) => completion != Absent
      case _ => false
  }

  /** A request is taken for accepted exactly if some event of the history has shown that. */
  ghost predicate WasShown(h: History) {
    h.After? && (ShowsRequest(ViewOf(h.past).phase, h.event) || WasShown(h.past))
  }

  lemma {:induction false} AcceptedMeans(h: History)
    ensures ViewOf(h).accepted <==> WasShown(h)
  {
    if h.After? {
      AcceptedMeans(h.past);
      AcceptedStep(ViewOf(h.past), h.event);
    }
  }

  lemma AcceptedStep(v: View, event: Event)
    ensures Advance(v, event).accepted <==> v.accepted || ShowsRequest(v.phase, event)
  {
    match event
    case Began(_, _) =>
    case Wrote(_) =>
    case CutShort(_) =>
    case Got(_) =>
    case _ => QuietChanges(v, event);
  }

  /** What a relay that tells the truth can deliver while it has the request or the completion,
      or hasn't. */
  predicate IsTrue(arrival: Arrival, hasRequest: bool, hasCompletion: bool) {
    match arrival
    case Text(Ack(_, kind)) => (kind == RequestMessage ==> hasRequest) && (kind == CompletionMessage ==> hasCompletion)
    case Text(Receipt(_, kind)) => kind == RequestMessage ==> hasRequest
    case Text(Message(_, kind, _)) => kind == ResponseMessage ==> hasRequest
    case Text(State(_, _, request, _, completion)) =>
      && (request == Accepted || request == Delivered ==> hasRequest)
      && (completion == Absent <==> !hasCompletion)
    case _ => true
  }

  predicate TakenBy(taken: Option<nat>, at: nat) {
    taken.Some? && taken.value <= at
  }

  /** A relay that took the request and the completion at certain awaits, or never, and tells the
      truth about that at every await. */
  ghost predicate IsHonest(run: Run, request: Option<nat>, completion: Option<nat>) {
    forall at: nat ::
      IsTrue(Yielded(run.script, run.quiet, at), TakenBy(request, at), TakenBy(completion, at))
  }

  /** With an honest relay, a request taken for accepted has been taken. */
  lemma {:induction false} AcceptedWasTaken(run: Run, h: History, request: Option<nat>, completion: Option<nat>)
    requires Legal(run.ids, h) && Scheduled(run, h) && IsHonest(run, request, completion) && ViewOf(h).accepted
    ensures TakenBy(request, MomentOf(run, h).at)
  {
    AcceptedStep(ViewOf(h.past), h.event);
    if ViewOf(h.past).accepted {
      AcceptedWasTaken(run, h.past, request, completion);
    } else {
      ShownIsTrue(run, h, request, completion);
    }
  }

  lemma ShownIsTrue(run: Run, h: History, request: Option<nat>, completion: Option<nat>)
    requires Scheduled(run, h) && IsHonest(run, request, completion) && h.After? && h.event.Got?
    ensures ShowsRequest(ViewOf(h.past).phase, h.event) ==> TakenBy(request, MomentOf(run, h).at)
    ensures ShowsCompletion(h.event) ==> TakenBy(completion, MomentOf(run, h).at)
  {
    var at := MomentOf(run, h.past).at;
    var arrival := Yielded(run.script, run.quiet, at);
    ArrivalMeans(run.ids, arrival);
    assert arrival == Text(h.event.incoming);
    assert IsTrue(arrival, TakenBy(request, at), TakenBy(completion, at));
  }
}
