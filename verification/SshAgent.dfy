/** One client connection of the SSH agent multiplexer: routing a packet, exchanging it with
    an upstream agent that is dialed at most once, and what holds over whole connections. */
module SshAgent {
  import opened Wrappers
  import opened SshWire
  import opened SshIdentities
  import opened SshAuthentication

  const FAILURE: byte := 5
  const EXTENSION_RESPONSE: byte := 29

  function Query(): (name: seq<byte>) ensures |name| == 5 { Bytes("query") }

  function QueryRequest(): seq<byte> { [EXTENSION] + Str(Query()) }

  function SignRequest(key: seq<byte>, message: seq<byte>, flags: nat): seq<byte>
    requires |key| < U32_LIMIT && |message| < U32_LIMIT && flags < U32_LIMIT
  {
    [SIGN_REQUEST] + (Str(key) + (Str(message) + U32Bytes(flags)))
  }

  // ---- Routing ----------------------------------------------------------

  datatype Route =
    | ListIdentities
    | Authenticate(algorithm: Algorithm, message: seq<byte>)
    | Forward
    | ExtensionQuery
    | Refuse

  /** A sign request that asks for an SSH user authentication with the selected key. */
  ghost predicate IsAuthenticationRequest(selected: SelectedIdentity, packet: seq<byte>, algorithm: Algorithm,
                                          message: seq<byte>) {
    && |selected.keyBlob| < U32_LIMIT && |message| < U32_LIMIT
    && IsAuthentication(message, selected.keyBlob, algorithm)
    && exists flags: nat | flags < U32_LIMIT :: AlgorithmFor(selected.keyKind, flags) == Some(algorithm)
         && packet == SignRequest(selected.keyBlob, message, flags)
  }

  function SignRequestStart(key: seq<byte>, rest: seq<byte>): seq<byte>
    requires |key| < U32_LIMIT
  {
    [SIGN_REQUEST] + (Str(key) + rest)
  }

  /** A sign request, well formed or not, that names another key. */
  ghost predicate NamesAnotherKey(selected: SelectedIdentity, packet: seq<byte>) {
    exists key, rest | |key| < U32_LIMIT && key != selected.keyBlob :: packet == SignRequestStart(key, rest)
  }

  /** Which packets take which route. */
  ghost predicate Takes(selected: SelectedIdentity, packet: seq<byte>, route: Route) {
    match route
    case ListIdentities => packet == [REQUEST_IDENTITIES]
    case ExtensionQuery => packet == QueryRequest()
    case Forward =>
      || NamesAnotherKey(selected, packet)
      || (packet != [] && packet[0] == EXTENSION && packet != QueryRequest())
    case Authenticate(algorithm, message) => IsAuthenticationRequest(selected, packet, algorithm, message)
    case Refuse =>
      && packet != [REQUEST_IDENTITIES] && !NamesAnotherKey(selected, packet)
      && (packet != [] ==> packet[0] != EXTENSION)
      && forall algorithm, message :: !IsAuthenticationRequest(selected, packet, algorithm, message)
  }

  /** A sign request with the selected key, and flags that stand for the algorithm with such a key:
      none for Ed25519, 2 for SHA-256 and 4 for SHA-512 with RSA. */
  predicate SignsWith(selected: SelectedIdentity, packet: seq<byte>, algorithm: Algorithm, message: seq<byte>,
                      flags: nat)
  {
    && |selected.keyBlob| < U32_LIMIT && |message| < U32_LIMIT && flags in {0, 2, 4}
    && packet == SignRequest(selected.keyBlob, message, flags)
    && match algorithm
       case Ed25519 => selected.keyKind == Some(Ed25519Key) && flags == 0
       case RsaSha256 => selected.keyKind == Some(RsaKey) && flags == 2
       case RsaSha512 => selected.keyKind == Some(RsaKey) && flags == 4
  }

  /** Authentication requests are the sign requests whose flags stand for the algorithm, and
      whose message asks for authentication with it. */
  lemma FlagsFixAlgorithm(selected: SelectedIdentity, packet: seq<byte>, algorithm: Algorithm, message: seq<byte>)
    ensures IsAuthenticationRequest(selected, packet, algorithm, message) <==>
      && |selected.keyBlob| < U32_LIMIT && IsAuthentication(message, selected.keyBlob, algorithm)
      && exists flags :: SignsWith(selected, packet, algorithm, message, flags)
  {
    if IsAuthenticationRequest(selected, packet, algorithm, message) {
      var flags: nat :| flags < U32_LIMIT && AlgorithmFor(selected.keyKind, flags) == Some(algorithm)
        && packet == SignRequest(selected.keyBlob, message, flags);
      assert SignsWith(selected, packet, algorithm, message, flags);
    }
    if exists flags :: SignsWith(selected, packet, algorithm, message, flags) {
      var flags :| SignsWith(selected, packet, algorithm, message, flags);
      assert AlgorithmFor(selected.keyKind, flags) == Some(algorithm);
    }
  }

  /** A sign request and the extension query, byte for byte. */
  lemma QueryIsPrinted()
    ensures QueryRequest() == [27, 0, 0, 0, 5, 113, 117, 101, 114, 121]
    ensures [EXTENSION_RESPONSE] + Str(Query()) == [29, 0, 0, 0, 5, 113, 117, 101, 114, 121]
    ensures SignRequest([7], [8, 9], 2) == [13, 0, 0, 0, 1, 7, 0, 0, 0, 2, 8, 9, 0, 0, 0, 2]
  {
    assert Query() == [113, 117, 101, 114, 121];
  }

  lemma ReadsSignRequest(key: seq<byte>, message: seq<byte>, flags: nat)
    requires |key| < U32_LIMIT && |message| < U32_LIMIT && flags < U32_LIMIT
    ensures ReadStr(SignRequest(key, message, flags)[1..]) == Some((key, Str(message) + U32Bytes(flags)))
    ensures ReadStr(Str(message) + U32Bytes(flags)) == Some((message, U32Bytes(flags)))
    ensures ReadU32(U32Bytes(flags)) == Some((flags, []))
  {
    assert SignRequest(key, message, flags)[1..] == Str(key) + (Str(message) + U32Bytes(flags));
    ReadsWhatWasPut(key, Str(message) + U32Bytes(flags));
    ReadsWhatWasPut(message, U32Bytes(flags));
    ReadsWhatWasPutU32(flags, []);
    assert U32Bytes(flags) + [] == U32Bytes(flags);
  }

  lemma ReadsSignRequestStart(key: seq<byte>, rest: seq<byte>)
    requires |key| < U32_LIMIT
    ensures ReadStr(SignRequestStart(key, rest)[1..]) == Some((key, rest))
  {
    assert SignRequestStart(key, rest)[1..] == Str(key) + rest;
    ReadsWhatWasPut(key, rest);
  }

  lemma NamesAnotherKeyReads(selected: SelectedIdentity, packet: seq<byte>)
    ensures NamesAnotherKey(selected, packet) <==>
      (packet != [] && packet[0] == SIGN_REQUEST && ReadStr(packet[1..]).Some?
       && ReadStr(packet[1..]).value.0 != selected.keyBlob)
  {
    if NamesAnotherKey(selected, packet) {
      var key, rest :| |key| < U32_LIMIT && key != selected.keyBlob && packet == SignRequestStart(key, rest);
      ReadsSignRequestStart(key, rest);
    }
    if packet != [] && packet[0] == SIGN_REQUEST && ReadStr(packet[1..]).Some? {
      ReadStrIsExact(packet[1..]);
      var (key, rest) := ReadStr(packet[1..]).value;
      assert packet == [packet[0]] + packet[1..];
      assert packet == SignRequestStart(key, rest);
    }
  }

  /** What an authentication request asks for can be read from it. */
  lemma AuthenticationRequestReads(selected: SelectedIdentity, packet: seq<byte>, algorithm: Algorithm,
                                   message: seq<byte>)
    returns (m1: seq<byte>, m2: seq<byte>, flags: nat)
    requires IsAuthenticationRequest(selected, packet, algorithm, message)
    ensures |packet| > 1 && packet[0] == SIGN_REQUEST
    ensures ReadStr(packet[1..]) == Some((selected.keyBlob, m1))
    ensures ReadStr(m1) == Some((message, m2))
    ensures ReadU32(m2) == Some((flags, []))
    ensures AlgorithmFor(selected.keyKind, flags) == Some(algorithm)
  {
    flags :| flags < U32_LIMIT && AlgorithmFor(selected.keyKind, flags) == Some(algorithm)
      && packet == SignRequest(selected.keyBlob, message, flags);
    ReadsSignRequest(selected.keyBlob, message, flags);
    m2 := U32Bytes(flags);
    m1 := Str(message) + m2;
  }

  lemma AuthenticationRequestIsUnique(selected: SelectedIdentity, packet: seq<byte>, a: Algorithm, m: seq<byte>,
                                      b: Algorithm, n: seq<byte>)
    requires IsAuthenticationRequest(selected, packet, a, m)
    requires IsAuthenticationRequest(selected, packet, b, n)
    ensures a == b && m == n
  {
    var _, _, _ := AuthenticationRequestReads(selected, packet, a, m);
    var _, _, _ := AuthenticationRequestReads(selected, packet, b, n);
  }

  lemma AuthenticationIsNothingElse(selected: SelectedIdentity, packet: seq<byte>, algorithm: Algorithm,
                                    message: seq<byte>)
    requires IsAuthenticationRequest(selected, packet, algorithm, message)
    ensures |packet| > 1 && packet[0] == SIGN_REQUEST && !NamesAnotherKey(selected, packet)
  {
    NamesAnotherKeyReads(selected, packet);
    var _, _, _ := AuthenticationRequestReads(selected, packet, algorithm, message);
  }

  lemma AnotherKeyIsNothingElse(selected: SelectedIdentity, packet: seq<byte>)
    requires NamesAnotherKey(selected, packet)
    ensures |packet| > 1 && packet[0] == SIGN_REQUEST
  {
    NamesAnotherKeyReads(selected, packet);
  }

  /** A packet never takes two routes. */
  lemma RouteIsUnique(selected: SelectedIdentity, packet: seq<byte>, a: Route, b: Route)
    requires Takes(selected, packet, a) && Takes(selected, packet, b)
    ensures a == b
  {
    if NamesAnotherKey(selected, packet) {
      AnotherKeyIsNothingElse(selected, packet);
    }
    if a.Authenticate? {
      AuthenticationIsNothingElse(selected, packet, a.algorithm, a.message);
    }
    if b.Authenticate? {
      AuthenticationIsNothingElse(selected, packet, b.algorithm, b.message);
      if a.Authenticate? {
        AuthenticationRequestIsUnique(selected, packet, a.algorithm, a.message, b.algorithm, b.message);
      }
    }
  }

  /** A sign request for the selected key that doesn't ask for an authentication with it. */
  ghost predicate AsksForNothing(selected: SelectedIdentity, packet: seq<byte>)
    requires packet != []
  {
    match ReadStr(packet[1..])
    case None => true
    case Some((key, rest)) =>
      key == selected.keyBlob && match ReadStr(rest)
      case None => true
      case Some((message, flags)) =>
        match ReadU32(flags)
        case None => true
        case Some((value, end)) =>
          end != [] || match AlgorithmFor(selected.keyKind, value)
                       case None => true
                       case Some(algorithm) => !IsAuthentication(message, key, algorithm)
  }

  lemma AsksForNoAuthentication(selected: SelectedIdentity, packet: seq<byte>, algorithm: Algorithm,
                                message: seq<byte>)
    requires packet != [] && AsksForNothing(selected, packet)
    ensures !IsAuthenticationRequest(selected, packet, algorithm, message)
  {
    if IsAuthenticationRequest(selected, packet, algorithm, message) {
      var _, _, _ := AuthenticationRequestReads(selected, packet, algorithm, message);
    }
  }

  lemma UnreadableIsRefused(selected: SelectedIdentity, packet: seq<byte>)
    requires packet != [] && packet[0] == SIGN_REQUEST && AsksForNothing(selected, packet)
    ensures Takes(selected, packet, Refuse)
  {
    NamesAnotherKeyReads(selected, packet);
    forall algorithm, message
      ensures !IsAuthenticationRequest(selected, packet, algorithm, message)
    {
      AsksForNoAuthentication(selected, packet, algorithm, message);
    }
  }

  lemma ReadIsSignRequest(packet: seq<byte>, key: seq<byte>, message: seq<byte>, flags: nat,
                          m1: seq<byte>, m2: seq<byte>)
    requires packet != [] && packet[0] == SIGN_REQUEST
    requires ReadStr(packet[1..]) == Some((key, m1))
    requires ReadStr(m1) == Some((message, m2))
    requires ReadU32(m2) == Some((flags, []))
    ensures |key| < U32_LIMIT && |message| < U32_LIMIT && flags < U32_LIMIT
    ensures packet == SignRequest(key, message, flags)
  {
    ReadStrIsExact(packet[1..]);
    ReadStrIsExact(m1);
    ReadU32IsExact(m2);
    assert packet == [SIGN_REQUEST] + packet[1..];
    assert m2 == U32Bytes(flags);
  }

  method ParseAuthentication(selected: SelectedIdentity, packet: seq<byte>) returns (route: Route)
    requires packet != [] && packet[0] == SIGN_REQUEST
    ensures Takes(selected, packet, route)
  {
    NamesAnotherKeyReads(selected, packet);
    var request := new Cursor(packet[1..]);
    var keyBlob := request.String();
    if keyBlob.Err? {
      UnreadableIsRefused(selected, packet);
      return Refuse;
    }
    if keyBlob.value != selected.keyBlob {
      return Forward;
    }
    ghost var m1 := request.remaining;
    var message := request.String();
    if message.Err? {
      UnreadableIsRefused(selected, packet);
      return Refuse;
    }
    ghost var m2 := request.remaining;
    var flags := request.U32();
    if flags.Err? {
      UnreadableIsRefused(selected, packet);
      return Refuse;
    }
    var end := request.End();
    if end.Err? {
      UnreadableIsRefused(selected, packet);
      return Refuse;
    }
    ReadIsSignRequest(packet, keyBlob.value, message.value, flags.value, m1, m2);
    route := Authorize(selected, packet, message.value, flags.value);
  }

  method Authorize(selected: SelectedIdentity, packet: seq<byte>, message: seq<byte>, flags: nat)
    returns (route: Route)
    requires |selected.keyBlob| < U32_LIMIT && |message| < U32_LIMIT && flags < U32_LIMIT
    requires packet == SignRequest(selected.keyBlob, message, flags)
    ensures Takes(selected, packet, route)
  {
    ReadsSignRequest(selected.keyBlob, message, flags);
    var algorithm := AlgorithmFor(selected.keyKind, flags);
    if algorithm == None {
      UnreadableIsRefused(selected, packet);
      return Refuse;
    }
    var valid := ValidateAuthenticationMessage(message, selected.keyBlob, algorithm.value);
    if valid.Err? {
      UnreadableIsRefused(selected, packet);
      return Refuse;
    }
    route := Authenticate(algorithm.value, message);
  }

  method IsExtensionQuery(contents: seq<byte>) returns (r: bool)
    ensures r <==> contents == Str(Query())
  {
    ReadsWhatWasPut(Query(), []);
    assert Str(Query()) + [] == Str(Query());
    var request := new Cursor(contents);
    var name := request.String();
    if name.Err? || name.value != Query() {
      return false;
    }
    ReadStrIsExact(contents);
    var end := request.End();
    r := end.Ok?;
  }

  /** Every packet takes exactly one route. */
  method SelectRoute(selected: SelectedIdentity, packet: seq<byte>) returns (route: Route)
    ensures Takes(selected, packet, route)
    ensures forall other | Takes(selected, packet, other) :: other == route
  {
    NamesAnotherKeyReads(selected, packet);
    if packet == [] {
      route := Refuse;
    } else if packet[0] == REQUEST_IDENTITIES && packet[1..] == [] {
      assert packet == [packet[0]] + packet[1..];
      route := ListIdentities;
    } else if packet[0] == SIGN_REQUEST {
      route := ParseAuthentication(selected, packet);
    } else if packet[0] == EXTENSION {
      assert packet == [EXTENSION] + packet[1..] && QueryRequest()[1..] == Str(Query());
      var query := IsExtensionQuery(packet[1..]);
      route := if query then ExtensionQuery else Forward;
    } else {
      route := Refuse;
    }
    forall other | Takes(selected, packet, other)
      ensures other == route
    {
      RouteIsUnique(selected, packet, other, route);
    }
  }

  // ---- The answer to an extension query ---------------------------------

  function PrintStrings(names: seq<seq<byte>>): seq<byte>
    requires forall name <- names :: |name| < U32_LIMIT
  {
    if names == [] then [] else Str(names[0]) + PrintStrings(names[1..])
  }

  predicate AreStrings(input: seq<byte>)
    decreases |input|
  {
    input == [] || (ReadStr(input).Some? && AreStrings(ReadStr(input).value.1))
  }

  lemma {:induction false} PrintedAreStrings(names: seq<seq<byte>>)
    requires forall name <- names :: |name| < U32_LIMIT
    ensures AreStrings(PrintStrings(names))
  {
    if names != [] {
      ReadsWhatWasPut(names[0], PrintStrings(names[1..]));
      PrintedAreStrings(names[1..]);
    }
  }

  lemma {:induction false} StringsArePrinted(input: seq<byte>) returns (names: seq<seq<byte>>)
    requires AreStrings(input)
    ensures forall name <- names :: |name| < U32_LIMIT
    ensures input == PrintStrings(names)
    decreases |input|
  {
    if input == [] {
      names := [];
    } else {
      ReadStrIsExact(input);
      var (name, rest) := ReadStr(input).value;
      var others := StringsArePrinted(rest);
      names := [name] + others;
    }
  }

  /** An answer names the query and then any number of extensions. */
  ghost predicate IsQueryResponse(packet: seq<byte>) {
    exists names: seq<seq<byte>> | (forall name <- names :: |name| < U32_LIMIT) ::
      packet == [EXTENSION_RESPONSE] + (Str(Query()) + PrintStrings(names))
  }

  lemma QueryResponseReads(packet: seq<byte>)
    ensures IsQueryResponse(packet) <==>
      (packet != [] && packet[0] == EXTENSION_RESPONSE && ReadStr(packet[1..]).Some?
       && ReadStr(packet[1..]).value.0 == Query() && AreStrings(ReadStr(packet[1..]).value.1))
  {
    if IsQueryResponse(packet) {
      var names: seq<seq<byte>> :| (forall name <- names :: |name| < U32_LIMIT)
        && packet == [EXTENSION_RESPONSE] + (Str(Query()) + PrintStrings(names));
      assert packet[1..] == Str(Query()) + PrintStrings(names);
      ReadsWhatWasPut(Query(), PrintStrings(names));
      PrintedAreStrings(names);
    }
    if packet != [] && packet[0] == EXTENSION_RESPONSE && ReadStr(packet[1..]).Some?
       && ReadStr(packet[1..]).value.0 == Query() && AreStrings(ReadStr(packet[1..]).value.1) {
      ReadStrIsExact(packet[1..]);
      var names := StringsArePrinted(ReadStr(packet[1..]).value.1);
      assert packet == [packet[0]] + packet[1..];
    }
  }

  method ValidExtensionQueryResponse(packet: seq<byte>) returns (valid: bool)
    ensures valid <==> IsQueryResponse(packet)
  {
    QueryResponseReads(packet);
    var response := new Cursor(packet);
    var tag := response.Byte();
    if tag.Err? || tag.value != EXTENSION_RESPONSE {
      return false;
    }
    var name := response.String();
    if name.Err? || name.value != Query() {
      return false;
    }
    ghost var rest := response.remaining;
    while response.remaining != []
      invariant AreStrings(response.remaining) <==> AreStrings(rest)
      decreases |response.remaining|
    {
      var next := response.String();
      if next.Err? {
        return false;
      }
    }
    return true;
  }

  /** Answers to the query, byte for byte: none further, and one further extension. */
  lemma PrintedQueryAnswers()
    ensures IsQueryResponse([29, 0, 0, 0, 5, 113, 117, 101, 114, 121])
    ensures IsQueryResponse([29, 0, 0, 0, 5, 113, 117, 101, 114, 121] + [0, 0, 0, 1, 120])
    ensures !IsQueryResponse([5])
  {
    QueryIsPrinted();
    var none: seq<seq<byte>> := [];
    var one: seq<seq<byte>> := [[120]];
    assert PrintStrings(none) == [] && PrintStrings(one[1..]) == [];
    assert PrintStrings(one) == Str([120]) + PrintStrings(one[1..]) == [0, 0, 0, 1, 120];
    assert [EXTENSION_RESPONSE] + (Str(Query()) + PrintStrings(none)) == [29, 0, 0, 0, 5, 113, 117, 101, 114, 121];
    assert [EXTENSION_RESPONSE] + (Str(Query()) + PrintStrings(one)) ==
      [29, 0, 0, 0, 5, 113, 117, 101, 114, 121] + [0, 0, 0, 1, 120];
    assert forall name <- none :: |name| < U32_LIMIT;
    assert forall name <- one :: |name| < U32_LIMIT;
  }

  // ---- Packets on a stream ----------------------------------------------

  predicate IsPacket(packet: seq<byte>) {
    0 < |packet| <= MAX_PACKET_LENGTH
  }

  /** Packets aren't empty and have at most 256 KiB. */
  lemma PacketMeans(packet: seq<byte>)
    ensures IsPacket(packet) <==> 1 <= |packet| <= 262_144
  {
  }

  /** A connection to an upstream agent that will send `incoming` and then end, and that
      breaks after taking `room` more bytes. */
  class UnixStream {
    var incoming: seq<byte>
    var room: nat
    ghost var written: seq<byte>

    /** A packet is a string on the stream; one that doesn't fit is not begun. */
    method WritePacket(packet: seq<byte>) returns (r: Result<(), InvalidData>)
      modifies this`room, this`written
      ensures |packet| >= U32_LIMIT ==> r.Err? && written == old(written)
      ensures |packet| < U32_LIMIT ==> old(written) <= written <= old(written) + Str(packet)
      ensures r.Ok? ==> |packet| < U32_LIMIT && written == old(written) + Str(packet)
      ensures |packet| < U32_LIMIT && |Str(packet)| <= old(room) ==> r.Ok?
    {
      if |packet| >= U32_LIMIT {
        return Err(InvalidData);
      }
      var frame := Str(packet);
      if |frame| > room {
        written := written + frame[..room];
        room := 0;
        return Err(InvalidData);
      }
      written := written + frame;
      room := room - |frame|;
      return Ok(());
    }

    /** Reads exactly the packets of a permitted length, one at a time. */
    method ReadPacket() returns (r: Result<Option<seq<byte>>, InvalidData>)
      modifies this`incoming
      ensures r.Ok? && r.value.Some? ==>
        IsPacket(r.value.value) && old(incoming) == Str(r.value.value) + incoming
      ensures r == Ok(None) <==> old(incoming) == []
      ensures forall packet, rest | IsPacket(packet) && old(incoming) == Str(packet) + rest ::
        r == Ok(Some(packet)) && incoming == rest
    {
      forall packet, rest | IsPacket(packet) && incoming == Str(packet) + rest
        ensures ReadStr(incoming) == Some((packet, rest))
      {
        ReadsWhatWasPut(packet, rest);
      }
      if incoming == [] {
        return Ok(None);
      }
      if |incoming| < 4 {
        incoming := [];
        return Err(InvalidData);
      }
      var length := U32Value(incoming[..4]);
      incoming := incoming[4..];
      if length == 0 || length > MAX_PACKET_LENGTH {
        return Err(InvalidData);
      }
      if |incoming| < length {
        incoming := [];
        return Err(InvalidData);
      }
      ReadStrIsExact(old(incoming));
      var packet := incoming[..length];
      incoming := incoming[length..];
      return Ok(Some(packet));
    }
  }
}
