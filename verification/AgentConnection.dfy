/** A client connection of the SSH agent multiplexer and its upstream agent, and what holds
    over every run of client packets. */
module AgentConnection {
  import opened Wrappers
  import opened SshWire
  import opened SshIdentities
  import opened SshAuthentication
  import opened SshAgent

  datatype Action =
    | Respond(response: seq<byte>)
    | Authenticate(algorithm: Algorithm, message: seq<byte>)

  datatype Phase = Unconnected | Connected | Unavailable

  /** One client packet: whether the upstream agent was dialed and the packet sent to it, what
      it replied, and what was done. */
  datatype Turn = Turn(packet: seq<byte>, before: Phase, dialed: bool, sent: bool, reply: Option<seq<byte>>,
                       after: Phase, action: Action)

  // ---- One turn ---------------------------------------------------------

  /** What forwarding a packet may do to the upstream agent. */
  predicate Exchanged(packet: seq<byte>, before: Phase, dialed: bool, sent: bool, reply: Option<seq<byte>>,
                      after: Phase) {
    && dialed == (before == Unconnected)
    && (before == Unavailable ==> !sent && after == Unavailable)
    && (before == Connected && |packet| < U32_LIMIT ==> sent)
    && (sent ==> |packet| < U32_LIMIT)
    && (reply.Some? ==> sent && after == Connected && IsPacket(reply.value))
    && (reply == None ==> after == Unavailable)
  }

  predicate Forwarded(t: Turn) {
    Exchanged(t.packet, t.before, t.dialed, t.sent, t.reply, t.after)
  }

  predicate LeftAlone(t: Turn) {
    !t.dialed && !t.sent && t.reply == None && t.before == t.after
  }

  /** What the client is told. */
  ghost predicate Acts(selected: SelectedIdentity, route: Route, reply: Option<seq<byte>>, action: Action)
    requires IsPrintable(selected)
  {
    match route
    case ListIdentities => action.Respond? && Answers(selected, reply, action.response)
    case Authenticate(algorithm, message) => action == Action.Authenticate(algorithm, message)
    case Forward => action == Respond(if reply.Some? then reply.value else [FAILURE])
    case ExtensionQuery =>
      action == Respond(if reply.Some? && IsQueryResponse(reply.value) then reply.value
                        else [EXTENSION_RESPONSE] + Str(Query()))
    case Refuse => action == Respond([FAILURE])
  }

  ghost predicate LegalTurn(selected: SelectedIdentity, t: Turn)
    requires IsPrintable(selected)
  {
    exists route :: Takes(selected, t.packet, route)
      && (if route.Authenticate? || route.Refuse? then LeftAlone(t) else Forwarded(t))
      && Acts(selected, route, t.reply, t.action)
  }

  // ---- Runs -------------------------------------------------------------

  function PhaseAfter(start: Phase, history: seq<Turn>): Phase {
    if history == [] then start else history[|history| - 1].after
  }

  /** A run from a phase: every turn is legal and begins where the one before it ended. */
  ghost predicate LegalRun(selected: SelectedIdentity, start: Phase, history: seq<Turn>)
    requires IsPrintable(selected)
  {
    forall i | 0 <= i < |history| ::
      LegalTurn(selected, history[i]) && history[i].before == PhaseAfter(start, history[..i])
  }

  /** The packets sent to the upstream agent, as they appear on its stream. */
  function Sent(history: seq<Turn>): seq<byte> {
    if history == [] then []
    else
      var last := history[|history| - 1];
      Sent(history[..|history| - 1])
      + if last.sent && |last.packet| < U32_LIMIT then Str(last.packet) else []
  }

  /** The replies received from it. */
  function Received(history: seq<Turn>): seq<byte> {
    if history == [] then []
    else
      var last := history[|history| - 1];
      Received(history[..|history| - 1])
      + if last.reply.Some? && |last.reply.value| < U32_LIMIT then Str(last.reply.value) else []
  }

  lemma LongerRun(selected: SelectedIdentity, start: Phase, history: seq<Turn>, t: Turn)
    requires IsPrintable(selected) && LegalRun(selected, start, history)
    requires LegalTurn(selected, t) && t.before == PhaseAfter(start, history)
    ensures LegalRun(selected, start, history + [t])
  {
    var longer := history + [t];
    forall i | 0 <= i < |longer|
      ensures LegalTurn(selected, longer[i]) && longer[i].before == PhaseAfter(start, longer[..i])
    {
      if i < |history| {
        assert longer[..i] == history[..i] && longer[i] == history[i];
      } else {
        assert longer[..i] == history && longer[i] == t;
      }
    }
  }

  lemma LongerStreams(start: Phase, history: seq<Turn>, t: Turn)
    ensures PhaseAfter(start, history + [t]) == t.after
    ensures Sent(history + [t]) ==
      Sent(history) + if t.sent && |t.packet| < U32_LIMIT then Str(t.packet) else []
    ensures Received(history + [t]) ==
      Received(history) + if t.reply.Some? && |t.reply.value| < U32_LIMIT then Str(t.reply.value) else []
  {
    assert (history + [t])[..|history|] == history;
  }

  // ---- The connection ---------------------------------------------------

  datatype Upstream =
    | Undialed(socket: Socket)
    | Dialed(connection: UnixStream)
    | Gone

  /** A path an agent may listen at, and the connection it gives whoever dials it. */
  datatype Socket = Socket(listening: bool, connection: UnixStream)

  class AgentConnection {
    const selected: SelectedIdentity
    ghost const peer: Option<UnixStream>
    ghost const start: Phase
    ghost const stream: seq<byte>
    var upstream: Upstream
    ghost var history: seq<Turn>

    /** There is an upstream agent to dial only if its socket is known. */
    constructor (selected: SelectedIdentity, socket: Option<Socket>)
      requires IsPrintable(selected)
      requires socket.Some? ==> socket.value.connection.written == []
      ensures Valid() && this.selected == selected && history == []
      ensures start == (if socket.Some? then Unconnected else Unavailable)
      ensures peer == (if socket.Some? then Some(socket.value.connection) else None)
      ensures stream == (if socket.Some? then socket.value.connection.incoming else [])
    {
      this.selected := selected;
      this.peer := if socket.Some? then Some(socket.value.connection) else None;
      this.start := if socket.Some? then Unconnected else Unavailable;
      this.stream := if socket.Some? then socket.value.connection.incoming else [];
      this.history := [];
      this.upstream := if socket.Some? then Undialed(socket.value) else Gone;
    }

    ghost function Peers(): set<UnixStream> {
      if peer.Some? then {peer.value} else {}
    }

    ghost function CurrentPhase(): Phase
      reads this`upstream
    {
      match upstream
      case Undialed(_) => Unconnected
      case Dialed(_) => Connected
      case Gone => Unavailable
    }

    /** The peer has been written what the run sent, whole while the connection lasts, and
        while it lasts exactly the replies of the run have been taken from its stream. */
    ghost predicate Wired()
      reads this, Peers()
    {
      match upstream
      case Undialed(socket) =>
        && peer == Some(socket.connection) && Sent(history) == [] && Received(history) == []
        && peer.value.written == [] && peer.value.incoming == stream
      case Dialed(connection) =>
        && peer == Some(connection) && peer.value.written == Sent(history)
        && stream == Received(history) + peer.value.incoming
      case Gone =>
        && Received(history) <= stream
        && (peer.Some? ==> peer.value.written <= Sent(history))
    }

    ghost predicate Valid()
      reads this, Peers()
    {
      && IsPrintable(selected)
      && LegalRun(selected, start, history)
      && CurrentPhase() == PhaseAfter(start, history)
      && Wired()
    }

    /** The upstream agent can be reached, takes the packet whole and answers it. */
    ghost predicate Serves(packet: seq<byte>, answer: seq<byte>, rest: seq<byte>)
      reads this, Peers()
    {
      && peer.Some? && (upstream.Dialed? || (upstream.Undialed? && upstream.socket.listening))
      && |packet| < U32_LIMIT && |Str(packet)| <= peer.value.room
      && IsPacket(answer) && peer.value.incoming == Str(answer) + rest
    }

    /** Dials the upstream agent the first time it is needed. */
    method Dial() returns (ghost dialed: bool)
      requires Valid()
      modifies this`upstream
      ensures dialed == old(upstream.Undialed?)
      ensures !upstream.Undialed? && Wired()
      ensures forall packet, answer, rest :: old(Serves(packet, answer, rest)) ==> Serves(packet, answer, rest)
      ensures !old(upstream.Undialed?) ==> upstream == old(upstream)
    {
      dialed := upstream.Undialed?;
      if upstream.Undialed? {
        var socket := upstream.socket;
        if socket.listening {
          upstream := Dialed(socket.connection);
        } else {
          upstream := Gone;
        }
      }
    }

    /** Writes a packet and reads the reply. Whatever goes wrong, the agent is given up. */
    method Exchange(packet: seq<byte>) returns (reply: Option<seq<byte>>, ghost sent: bool)
      requires upstream.Dialed? && Wired()
      modifies this`upstream, upstream.connection
      ensures sent == (|packet| < U32_LIMIT)
      ensures upstream == if reply.Some? then old(upstream) else Gone
      ensures reply.Some? ==> sent && IsPacket(reply.value)
      ensures reply.Some? ==>
        && peer.value.written == Sent(history) + Str(packet)
        && stream == Received(history) + Str(reply.value) + peer.value.incoming
      ensures peer.value.written <= if sent then Sent(history) + Str(packet) else Sent(history)
      ensures forall answer, rest :: old(Serves(packet, answer, rest)) ==> reply == Some(answer)
    {
      sent := |packet| < U32_LIMIT;
      var connection := upstream.connection;
      var written := connection.WritePacket(packet);
      if written.Err? {
        upstream := Gone;
        return None, sent;
      }
      var response := connection.ReadPacket();
      if response.Err? || response.value == None {
        upstream := Gone;
        return None, sent;
      }
      Regroup(Received(history), Str(response.value.value), connection.incoming);
      return response.value, sent;
    }

    method Forward(packet: seq<byte>)
      returns (reply: Option<seq<byte>>, ghost dialed: bool, ghost sent: bool)
      requires Valid()
      modifies this`upstream, Peers()
      ensures Exchanged(packet, old(CurrentPhase()), dialed, sent, reply, CurrentPhase())
      ensures Follows(packet, sent, reply)
      ensures forall answer, rest :: old(Serves(packet, answer, rest)) ==> reply == Some(answer)
    {
      dialed := Dial();
      if upstream.Gone? {
        return None, dialed, false;
      }
      reply, sent := Exchange(packet);
    }

    /** The wire after a turn that isn't part of the history yet. */
    ghost predicate Follows(packet: seq<byte>, sent: bool, reply: Option<seq<byte>>)
      reads this, Peers()
    {
      && (sent ==> |packet| < U32_LIMIT)
      && (reply.Some? ==> |reply.value| < U32_LIMIT)
      && var sentBytes := Sent(history) + if sent then Str(packet) else [];
      && var receivedBytes := Received(history) + if reply.Some? then Str(reply.value) else [];
      match upstream
      case Undialed(_) => Wired() && !sent && reply == None
      case Dialed(connection) =>
        && peer == Some(connection) && peer.value.written == sentBytes
        && stream == receivedBytes + peer.value.incoming
      case Gone =>
        && receivedBytes <= stream
        && (peer.Some? ==> peer.value.written <= sentBytes)
    }

    ghost method Record(route: Route, t: Turn)
      requires IsPrintable(selected) && LegalRun(selected, start, history)
      requires Takes(selected, t.packet, route) && Acts(selected, route, t.reply, t.action)
      requires if route.Authenticate? || route.Refuse? then LeftAlone(t) else Forwarded(t)
      requires t.before == PhaseAfter(start, history) && t.after == CurrentPhase()
      requires Follows(t.packet, t.sent, t.reply)
      modifies this`history
      ensures Valid() && history == old(history) + [t]
    {
      LongerRun(selected, start, history, t);
      LongerStreams(start, history, t);
      history := history + [t];
    }

    /** Handles one client packet: every packet gets exactly one action and one turn, and
        what is to be forwarded is answered by the upstream agent if that serves it. */
    method Handle(packet: seq<byte>) returns (action: Action, ghost route: Route, ghost t: Turn)
      requires Valid()
      modifies this`upstream, this`history, Peers()
      ensures Valid()
      ensures history == old(history) + [t] && t.packet == packet && t.action == action
      ensures Takes(selected, packet, route)
      ensures !route.Authenticate? && !route.Refuse? ==>
        forall answer, rest :: old(Serves(packet, answer, rest)) ==> t.reply == Some(answer)
    {
      var selectedRoute := SelectRoute(selected, packet);
      route := selectedRoute;
      if selectedRoute.Authenticate? || selectedRoute.Refuse? {
        action, t := HandleAlone(packet, selectedRoute);
      } else {
        assert forall answer, rest :: old(Serves(packet, answer, rest)) ==> Serves(packet, answer, rest);
        action, t := HandleForwarded(packet, selectedRoute);
      }
    }

    method HandleAlone(packet: seq<byte>, route: Route) returns (action: Action, ghost t: Turn)
      requires Valid() && Takes(selected, packet, route) && (route.Authenticate? || route.Refuse?)
      modifies this`history
      ensures Valid()
      ensures history == old(history) + [t] && t.packet == packet && t.action == action
    {
      action := if route.Authenticate? then Action.Authenticate(route.algorithm, route.message)
                else Respond([FAILURE]);
      NothingFollows(packet);
      t := Turn(packet, CurrentPhase(), false, false, None, CurrentPhase(), action);
      Record(route, t);
    }

    lemma NothingFollows(packet: seq<byte>)
      requires Wired()
      ensures Follows(packet, false, None)
    {
      assert Sent(history) + [] == Sent(history);
      assert Received(history) + [] == Received(history);
    }

    method HandleForwarded(packet: seq<byte>, route: Route) returns (action: Action, ghost t: Turn)
      requires Valid() && Takes(selected, packet, route) && !route.Authenticate? && !route.Refuse?
      modifies this`upstream, this`history, Peers()
      ensures Valid()
      ensures history == old(history) + [t] && t.packet == packet && t.action == action
      ensures forall answer, rest :: old(Serves(packet, answer, rest)) ==> t.reply == Some(answer)
    {
      ghost var before := CurrentPhase();
      var reply, dialed, sent := Forward(packet);
      action := Answer(route, reply);
      t := Turn(packet, before, dialed, sent, reply, CurrentPhase(), action);
      Record(route, t);
    }

    /** What the client is told about a packet that was forwarded. */
    method Answer(route: Route, reply: Option<seq<byte>>) returns (action: Action)
      requires IsPrintable(selected) && !route.Authenticate? && !route.Refuse?
      requires reply.Some? ==> IsPacket(reply.value)
      ensures Acts(selected, route, reply, action)
    {
      if route.ListIdentities? {
        var response := IdentitiesResponse(selected, reply);
        action := Respond(response);
      } else if route.Forward? {
        action := Respond(if reply.Some? then reply.value else [FAILURE]);
      } else {
        var valid := false;
        if reply.Some? {
          valid := ValidExtensionQueryResponse(reply.value);
        }
        if valid {
          action := Respond(reply.value);
        } else {
          var response := PutString([EXTENSION_RESPONSE], Query());
          action := Respond(response);
        }
      }
    }
  }

  // ---- Theorems about runs ----------------------------------------------

  /** The phases of a run, whatever the packets say. */
  predicate Phased(start: Phase, history: seq<Turn>) {
    forall i | 0 <= i < |history| ::
      && (LeftAlone(history[i]) || Forwarded(history[i]))
      && history[i].before == if i == 0 then start else history[i - 1].after
  }

  lemma LegalIsPhased(selected: SelectedIdentity, start: Phase, history: seq<Turn>)
    requires IsPrintable(selected) && LegalRun(selected, start, history)
    ensures Phased(start, history)
  {
    forall i | 0 <= i < |history|
      ensures LeftAlone(history[i]) || Forwarded(history[i])
      ensures history[i].before == if i == 0 then start else history[i - 1].after
    {
      assert LegalTurn(selected, history[i]) && history[i].before == PhaseAfter(start, history[..i]);
    }
  }

  /** Phases only move forward: the upstream agent is never dialed again, and once it is
      unavailable it stays so and nothing is sent to it. */
  lemma {:induction false} PhasesMoveForward(start: Phase, history: seq<Turn>, i: nat, j: nat)
    requires Phased(start, history) && i < j < |history|
    ensures history[i].after != Unconnected ==>
      history[j].before != Unconnected && history[j].after != Unconnected && !history[j].dialed
    ensures history[i].after == Unavailable ==>
      history[j].after == Unavailable && !history[j].sent && history[j].reply == None
    ensures history[j].before == Unconnected ==> LeftAlone(history[i])
    decreases j
  {
    assert history[j].before == history[j - 1].after;
    if i < j - 1 {
      PhasesMoveForward(start, history, i, j - 1);
    }
  }

  /** It is dialed at most once, and before anything is sent to it. */
  lemma DialedAtMostOnce(selected: SelectedIdentity, start: Phase, history: seq<Turn>, i: nat, j: nat)
    requires IsPrintable(selected) && LegalRun(selected, start, history)
    requires i < |history| && j < |history| && history[i].dialed
    ensures history[j].dialed ==> i == j
    ensures history[j].sent ==> i <= j
    ensures start == Unconnected
  {
    LegalIsPhased(selected, start, history);
    if i > 0 {
      PhasesMoveForward(start, history, 0, i);
    }
    if i < j {
      PhasesMoveForward(start, history, i, j);
    } else if j < i {
      PhasesMoveForward(start, history, j, i);
    }
  }

  /** What the upstream agent gets to see: a request for identities, an extension, or a sign
      request for another key, and never a sign request for the selected key. */
  lemma OnlyOtherKeysAreSent(selected: SelectedIdentity, start: Phase, history: seq<Turn>, i: nat)
    requires IsPrintable(selected) && LegalRun(selected, start, history)
    requires i < |history| && history[i].sent
    ensures var packet := history[i].packet;
      || packet == [REQUEST_IDENTITIES]
      || (packet != [] && packet[0] == EXTENSION)
      || NamesAnotherKey(selected, packet)
    ensures forall rest :: history[i].packet != SignRequestStart(selected.keyBlob, rest)
  {
    var packet := history[i].packet;
    assert LegalTurn(selected, history[i]);
    forall rest
      ensures packet != SignRequestStart(selected.keyBlob, rest)
    {
      ReadsSignRequestStart(selected.keyBlob, rest);
      NamesAnotherKeyReads(selected, packet);
    }
  }

  /** A list has the selected identity first if it can be used, and nowhere its key otherwise. */
  predicate StandsIn(selected: SelectedIdentity, all: seq<Identity>) {
    if selected.keyKind.Some? then all != [] && all[0] == Identity(selected.keyBlob, selected.comment)
    else forall identity <- all :: identity.keyBlob != selected.keyBlob
  }

  /** Whatever became of the upstream agent, a request for identities lists the selected
      identity first, and a request to authenticate with its key is met without the agent. */
  lemma SelectedStaysUsable(selected: SelectedIdentity, start: Phase, history: seq<Turn>, i: nat)
    requires IsPrintable(selected) && LegalRun(selected, start, history) && i < |history|
    ensures var t := history[i];
      t.packet == [11] ==>
        t.action.Respond?
        && exists all :: Fits(all) && t.action.response == Encode(all) && StandsIn(selected, all)
    ensures var t := history[i];
      forall algorithm, message | IsAuthenticationRequest(selected, t.packet, algorithm, message) ::
        t.action == Action.Authenticate(algorithm, message) && LeftAlone(t)
    ensures var t := history[i];
      t.action.Authenticate? ==>
        && IsAuthenticationRequest(selected, t.packet, t.action.algorithm, t.action.message)
        && exists flags :: SignsWith(selected, t.packet, t.action.algorithm, t.action.message, flags)
  {
    var t := history[i];
    if t.packet == [11] {
      SelectedIsListed(selected, start, history, i);
    }
    var route := RouteOf(selected, start, history, i);
    forall algorithm, message | IsAuthenticationRequest(selected, t.packet, algorithm, message)
      ensures t.action == Action.Authenticate(algorithm, message) && LeftAlone(t)
    {
      RouteIsUnique(selected, t.packet, route, Route.Authenticate(algorithm, message));
    }
    if t.action.Authenticate? {
      FlagsFixAlgorithm(selected, t.packet, t.action.algorithm, t.action.message);
    }
  }

  lemma SelectedIsListed(selected: SelectedIdentity, start: Phase, history: seq<Turn>, i: nat)
    requires IsPrintable(selected) && LegalRun(selected, start, history) && i < |history|
    requires history[i].packet == [11]
    ensures history[i].action.Respond?
    ensures exists all :: Fits(all) && history[i].action.response == Encode(all) && StandsIn(selected, all)
  {
    var t := history[i];
    var route := RouteOf(selected, start, history, i);
    RouteIsUnique(selected, t.packet, route, ListIdentities);
    AnswerListsSelected(selected, t.reply, t.action.response);
  }

  lemma AnswerListsSelected(selected: SelectedIdentity, upstream: Option<seq<byte>>, response: seq<byte>)
    requires IsPrintable(selected) && Answers(selected, upstream, response)
    ensures exists all :: Fits(all) && response == Encode(all) && StandsIn(selected, all)
  {
    MergedBegins(selected, []);
    if upstream.Some? && IsPrinted(upstream.value) {
      var all :| Fits(all) && Encode(all) == upstream.value
        && Fits(Merged(selected, all)) && response == Encode(Merged(selected, all));
      MergedBegins(selected, all);
      assert StandsIn(selected, Merged(selected, all));
    } else {
      assert Merged(selected, []) == Listed(selected);
      assert StandsIn(selected, Listed(selected));
    }
  }

  /** What is for the upstream agent gets to it and back: requests for other keys and other extensions
      are forwarded and its replies passed on as they are, a query is if the reply is an answer to
      one, and its identities are merged with the selected one. */
  lemma RepliesArePassedOn(selected: SelectedIdentity, start: Phase, history: seq<Turn>, i: nat, reply: seq<byte>)
    requires IsPrintable(selected) && LegalRun(selected, start, history) && i < |history|
    ensures var t := history[i];
      NamesAnotherKey(selected, t.packet) || (t.packet != [] && t.packet[0] == 27) || t.packet == [11] ==> Forwarded(t)
    ensures var t := history[i];
      NamesAnotherKey(selected, t.packet) || (t.packet != [] && t.packet[0] == 27 && t.packet != QueryRequest()) ==>
        t.action == Respond(if t.reply.Some? then t.reply.value else [5])
    ensures var t := history[i];
      t.packet == QueryRequest() && t.reply == Some(reply) && IsQueryResponse(reply) ==> t.action == Respond(reply)
    ensures var t := history[i];
      t.packet == QueryRequest() && !(t.reply.Some? && IsQueryResponse(t.reply.value)) ==>
        t.action == Respond([29, 0, 0, 0, 5, 113, 117, 101, 114, 121])
    ensures var t := history[i];
      t.packet == [11] && t.reply == Some(reply) ==>
        forall sent | Fits(sent) && Encode(sent) == reply ::
          t.action.Respond? && Fits(Merged(selected, sent)) && t.action.response == Encode(Merged(selected, sent))
  {
    var t := history[i];
    QueryIsPrinted();
    NamesAnotherKeyReads(selected, t.packet);
    var route := RouteOf(selected, start, history, i);
    if NamesAnotherKey(selected, t.packet) || (t.packet != [] && t.packet[0] == EXTENSION && t.packet != QueryRequest()) {
      RouteIsUnique(selected, t.packet, route, Forward);
    } else if t.packet == QueryRequest() {
      RouteIsUnique(selected, t.packet, route, ExtensionQuery);
    } else if t.packet == [REQUEST_IDENTITIES] {
      RouteIsUnique(selected, t.packet, route, ListIdentities);
      forall sent | t.reply == Some(reply) && Fits(sent) && Encode(sent) == reply
        ensures Fits(Merged(selected, sent)) && t.action.response == Encode(Merged(selected, sent))
      {
        AnswerIsMerged(selected, reply, t.action.response, sent);
      }
    }
  }

  lemma AnswerIsMerged(selected: SelectedIdentity, upstream: seq<byte>, response: seq<byte>, sent: seq<Identity>)
    requires IsPrintable(selected) && Answers(selected, Some(upstream), response)
    requires Fits(sent) && Encode(sent) == upstream
    ensures Fits(Merged(selected, sent)) && response == Encode(Merged(selected, sent))
  {
    assert IsPrinted(upstream);
    var all :| Fits(all) && Encode(all) == upstream
      && Fits(Merged(selected, all)) && response == Encode(Merged(selected, all));
    EncodeIsInjective(all, sent);
  }

  lemma RouteOf(selected: SelectedIdentity, start: Phase, history: seq<Turn>, i: nat) returns (route: Route)
    requires IsPrintable(selected) && LegalRun(selected, start, history) && i < |history|
    ensures var t := history[i];
      && Takes(selected, t.packet, route)
      && (if route.Authenticate? || route.Refuse? then LeftAlone(t) else Forwarded(t))
      && Acts(selected, route, t.reply, t.action)
  {
    var t := history[i];
    assert LegalTurn(selected, t);
    route :| Takes(selected, t.packet, route)
      && (if route.Authenticate? || route.Refuse? then LeftAlone(t) else Forwarded(t))
      && Acts(selected, route, t.reply, t.action);
  }

  /** Without an upstream agent every packet still gets its own answer. */
  lemma AloneItAnswersForItself(selected: SelectedIdentity, start: Phase, history: seq<Turn>, i: nat)
    requires IsPrintable(selected) && LegalRun(selected, start, history) && i < |history|
    requires history[i].before == Unavailable && history[i].action.Respond?
    ensures history[i].action.response ==
      if history[i].packet == [11] then
        (if selected.keyKind.Some? then Encode([Identity(selected.keyBlob, selected.comment)]) else Encode([]))
      else if history[i].packet == [27, 0, 0, 0, 5, 113, 117, 101, 114, 121] then
        [29, 0, 0, 0, 5, 113, 117, 101, 114, 121]
      else [5]
  {
    QueryIsPrinted();
    var t := history[i];
    var route := RouteOf(selected, start, history, i);
    if t.packet == [REQUEST_IDENTITIES] {
      RouteIsUnique(selected, t.packet, route, ListIdentities);
    } else if t.packet == QueryRequest() {
      RouteIsUnique(selected, t.packet, route, ExtensionQuery);
    }
  }
}
