/** Which signature requests are SSH user authentications (section 7 of RFC 4252, and the
    OpenSSH host-bound variant), and how a client packet is routed. */
module SshAuthentication {
  import opened Wrappers
  import opened SshWire
  import opened SshIdentities

  const REQUEST_IDENTITIES: byte := 11
  const SIGN_REQUEST: byte := 13
  const EXTENSION: byte := 27
  const USERAUTH_REQUEST: byte := 50
  const RSA_SHA2_256: nat := 0x02
  const RSA_SHA2_512: nat := 0x04

  datatype Algorithm = Ed25519 | RsaSha256 | RsaSha512

  function Name(algorithm: Algorithm): (name: seq<byte>)
    ensures |name| < U32_LIMIT
  {
    match algorithm
    case Ed25519 => Bytes("ssh-ed25519")
    case RsaSha256 => Bytes("rsa-sha2-256")
    case RsaSha512 => Bytes("rsa-sha2-512")
  }

  /** The flags of a sign request fix the algorithm for the kind of key. */
  function AlgorithmFor(kind: Option<KeyKind>, flags: nat): Option<Algorithm> {
    if kind == Some(Ed25519Key) && flags == 0 then Some(Ed25519)
    else if kind == Some(RsaKey) && flags == RSA_SHA2_256 then Some(RsaSha256)
    else if kind == Some(RsaKey) && flags == RSA_SHA2_512 then Some(RsaSha512)
    else None
  }

  // ---- The authentication message ---------------------------------------

  /** The parts of an authentication message that are free to vary. */
  datatype Authentication = Authentication(session: seq<byte>, user: seq<byte>, hostKey: Option<seq<byte>>)

  /** A host key names its type and has key data. */
  predicate IsHostKey(hostKey: seq<byte>) {
    ReadStr(hostKey).Some? && ReadStr(hostKey).value.0 != [] && ReadStr(hostKey).value.1 != []
  }

  predicate Permitted(a: Authentication) {
    && 0 < |a.session| < U32_LIMIT
    && |a.user| < U32_LIMIT
    && (a.hostKey.Some? ==> |a.hostKey.value| < U32_LIMIT && IsHostKey(a.hostKey.value))
  }

  function Service(): (name: seq<byte>) ensures |name| == 14 { Bytes("ssh-connection") }

  function PlainMethod(): (name: seq<byte>) ensures |name| == 9 { Bytes("publickey") }

  function HostBoundMethod(): (name: seq<byte>) ensures |name| == 35 { Bytes("publickey-hostbound-v00@openssh.com") }

  function Method(hostKey: Option<seq<byte>>): (name: seq<byte>)
    ensures |name| < U32_LIMIT
  {
    if hostKey.Some? then HostBoundMethod() else PlainMethod()
  }

  /** The second half: everything after the name of the authentication method. */
  function PrintKeys(hostKey: Option<seq<byte>>, key: seq<byte>, algorithm: Algorithm): seq<byte>
    requires |key| < U32_LIMIT && (hostKey.Some? ==> |hostKey.value| < U32_LIMIT)
  {
    [1 as byte] + (Str(Name(algorithm)) + (Str(key) + if hostKey.Some? then Str(hostKey.value) else []))
  }

  /** The first half, before what follows the name of the authentication method. */
  function PrintHead(session: seq<byte>, user: seq<byte>, name: seq<byte>, rest: seq<byte>): seq<byte>
    requires |session| < U32_LIMIT && |user| < U32_LIMIT && |name| < U32_LIMIT
  {
    Str(session) + ([USERAUTH_REQUEST] + (Str(user) + (Str(Service()) + (Str(name) + rest))))
  }

  function Print(a: Authentication, key: seq<byte>, algorithm: Algorithm): seq<byte>
    requires Permitted(a) && |key| < U32_LIMIT
  {
    PrintHead(a.session, a.user, Method(a.hostKey), PrintKeys(a.hostKey, key, algorithm))
  }

  // ---- Reading it back --------------------------------------------------

  /** Reads the first half, up to the method, and what remains. */
  function ReadHead(message: seq<byte>): Option<(seq<byte>, seq<byte>, seq<byte>, seq<byte>)> {
    match ReadStr(message)
    case None => None
    case Some((session, m1)) =>
      match ReadByte(m1)
      case None => None
      case Some((tag, m2)) =>
        match ReadStr(m2)
        case None => None
        case Some((user, m3)) =>
          match ReadStr(m3)
          case None => None
          case Some((service, m4)) =>
            match ReadStr(m4)
            case None => None
            case Some((name, m5)) =>
              if session != [] && tag == USERAUTH_REQUEST && service == Service()
              then Some((session, user, name, m5)) else None
  }

  /** Reads the second half for a method; the result is the host key, if there is one. */
  function ReadKeys(name: seq<byte>, input: seq<byte>, key: seq<byte>, algorithm: Algorithm)
    : Option<Option<seq<byte>>>
  {
    match ReadByte(input)
    case None => None
    case Some((flag, m1)) =>
      match ReadStr(m1)
      case None => None
      case Some((given, m2)) =>
        match ReadStr(m2)
        case None => None
        case Some((keyBlob, m3)) =>
          if flag != 1 || given != Name(algorithm) || keyBlob != key then None
          else if name == PlainMethod() then (if m3 == [] then Some(None) else None)
          else if name == HostBoundMethod() then
            match ReadStr(m3)
            case None => None
            case Some((hostKey, m4)) => if IsHostKey(hostKey) && m4 == [] then Some(Some(hostKey)) else None
          else None
  }

  function ReadAuthentication(message: seq<byte>, key: seq<byte>, algorithm: Algorithm): Option<Authentication> {
    match ReadHead(message)
    case None => None
    case Some((session, user, name, rest)) =>
      match ReadKeys(name, rest, key, algorithm)
      case None => None
      case Some(hostKey) => Some(Authentication(session, user, hostKey))
  }

  lemma ReadsPutByte(value: byte, rest: seq<byte>)
    ensures ReadByte([value] + rest) == Some((value, rest))
  {
  }

  /** Both halves, read step by step. */
  lemma ReadHeadSteps(message: seq<byte>, m1: seq<byte>, m2: seq<byte>, m3: seq<byte>, m4: seq<byte>, m5: seq<byte>,
                      session: seq<byte>, user: seq<byte>, name: seq<byte>)
    requires ReadStr(message) == Some((session, m1)) && session != []
    requires ReadByte(m1) == Some((USERAUTH_REQUEST, m2))
    requires ReadStr(m2) == Some((user, m3))
    requires ReadStr(m3) == Some((Service(), m4))
    requires ReadStr(m4) == Some((name, m5))
    ensures ReadHead(message) == Some((session, user, name, m5))
  {
  }

  lemma ReadKeysSteps(hostKey: Option<seq<byte>>, input: seq<byte>, m1: seq<byte>, m2: seq<byte>, m3: seq<byte>,
                      key: seq<byte>, algorithm: Algorithm)
    requires ReadByte(input) == Some((1, m1))
    requires ReadStr(m1) == Some((Name(algorithm), m2))
    requires ReadStr(m2) == Some((key, m3))
    requires hostKey == None ==> m3 == []
    requires hostKey.Some? ==> ReadStr(m3) == Some((hostKey.value, [])) && IsHostKey(hostKey.value)
    ensures ReadKeys(Method(hostKey), input, key, algorithm) == Some(hostKey)
  {
  }

  lemma ReadsPrintedKeys(hostKey: Option<seq<byte>>, key: seq<byte>, algorithm: Algorithm)
    requires |key| < U32_LIMIT
    requires hostKey.Some? ==> |hostKey.value| < U32_LIMIT && IsHostKey(hostKey.value)
    ensures ReadKeys(Method(hostKey), PrintKeys(hostKey, key, algorithm), key, algorithm) == Some(hostKey)
  {
    var m3 := if hostKey.Some? then Str(hostKey.value) else [];
    var m2 := Str(key) + m3;
    var m1 := Str(Name(algorithm)) + m2;
    ReadsPutByte(1, m1);
    ReadsWhatWasPut(Name(algorithm), m2);
    ReadsWhatWasPut(key, m3);
    if hostKey.Some? {
      assert Str(hostKey.value) + [] == Str(hostKey.value);
      ReadsWhatWasPut(hostKey.value, []);
    }
    ReadKeysSteps(hostKey, PrintKeys(hostKey, key, algorithm), m1, m2, m3, key, algorithm);
  }

  lemma ReadsPrintedHead(session: seq<byte>, user: seq<byte>, name: seq<byte>, rest: seq<byte>)
    requires 0 < |session| < U32_LIMIT && |user| < U32_LIMIT && |name| < U32_LIMIT
    ensures ReadHead(PrintHead(session, user, name, rest)) == Some((session, user, name, rest))
  {
    var m4 := Str(name) + rest;
    var m3 := Str(Service()) + m4;
    var m2 := Str(user) + m3;
    var m1 := [USERAUTH_REQUEST] + m2;
    ReadsWhatWasPut(session, m1);
    ReadsPutByte(USERAUTH_REQUEST, m2);
    ReadsWhatWasPut(user, m3);
    ReadsWhatWasPut(Service(), m4);
    ReadsWhatWasPut(name, rest);
    ReadHeadSteps(PrintHead(session, user, name, rest), m1, m2, m3, m4, rest, session, user, name);
  }

  /** Decoding is unique: a printed message reads back as what was printed. */
  lemma ReadsPrinted(a: Authentication, key: seq<byte>, algorithm: Algorithm)
    requires Permitted(a) && |key| < U32_LIMIT
    ensures ReadAuthentication(Print(a, key, algorithm), key, algorithm) == Some(a)
  {
    ReadsPrintedHead(a.session, a.user, Method(a.hostKey), PrintKeys(a.hostKey, key, algorithm));
    ReadsPrintedKeys(a.hostKey, key, algorithm);
  }

  lemma ReadKeysParts(name: seq<byte>, input: seq<byte>, key: seq<byte>, algorithm: Algorithm)
    returns (m1: seq<byte>, m2: seq<byte>, m3: seq<byte>)
    requires ReadKeys(name, input, key, algorithm).Some?
    ensures input == [1 as byte] + m1
    ensures ReadStr(m1) == Some((Name(algorithm), m2)) && ReadStr(m2) == Some((key, m3))
    ensures var hostKey := ReadKeys(name, input, key, algorithm).value;
      && name == Method(hostKey)
      && (hostKey == None ==> m3 == [])
      && (hostKey.Some? ==> ReadStr(m3) == Some((hostKey.value, [])) && IsHostKey(hostKey.value))
  {
    m1 := input[1..];
    assert input == [input[0]] + m1;
    m2 := ReadStr(m1).value.1;
    m3 := ReadStr(m2).value.1;
  }

  lemma ReadKeysIsExact(name: seq<byte>, input: seq<byte>, key: seq<byte>, algorithm: Algorithm)
    requires ReadKeys(name, input, key, algorithm).Some?
    ensures var hostKey := ReadKeys(name, input, key, algorithm).value;
      && name == Method(hostKey) && |key| < U32_LIMIT
      && (hostKey.Some? ==> |hostKey.value| < U32_LIMIT && IsHostKey(hostKey.value))
      && input == PrintKeys(hostKey, key, algorithm)
  {
    var hostKey := ReadKeys(name, input, key, algorithm).value;
    var m1, m2, m3 := ReadKeysParts(name, input, key, algorithm);
    ReadStrIsExact(m1);
    ReadStrIsExact(m2);
    if hostKey.Some? {
      ReadStrIsExact(m3);
      assert m3 == Str(hostKey.value);
    }
  }

  lemma ReadHeadParts(message: seq<byte>)
    returns (m1: seq<byte>, m2: seq<byte>, m3: seq<byte>, m4: seq<byte>)
    requires ReadHead(message).Some?
    ensures var (session, user, name, rest) := ReadHead(message).value;
      && ReadStr(message) == Some((session, m1)) && session != [] && m1 == [USERAUTH_REQUEST] + m2
      && ReadStr(m2) == Some((user, m3)) && ReadStr(m3) == Some((Service(), m4)) && ReadStr(m4) == Some((name, rest))
  {
    m1 := ReadStr(message).value.1;
    m2 := m1[1..];
    assert m1 == [m1[0]] + m2;
    m3 := ReadStr(m2).value.1;
    m4 := ReadStr(m3).value.1;
  }

  lemma ReadHeadIsExact(message: seq<byte>)
    requires ReadHead(message).Some?
    ensures var (session, user, name, rest) := ReadHead(message).value;
      && 0 < |session| < U32_LIMIT && |user| < U32_LIMIT && |name| < U32_LIMIT
      && message == PrintHead(session, user, name, rest)
  {
    var m1, m2, m3, m4 := ReadHeadParts(message);
    ReadStrIsExact(message);
    ReadStrIsExact(m2);
    ReadStrIsExact(m3);
    ReadStrIsExact(m4);
  }

  /** What reads as an authentication was printed from it. */
  lemma ReadIsExact(message: seq<byte>, key: seq<byte>, algorithm: Algorithm)
    requires ReadAuthentication(message, key, algorithm).Some?
    ensures var a := ReadAuthentication(message, key, algorithm).value;
      Permitted(a) && |key| < U32_LIMIT && message == Print(a, key, algorithm)
  {
    ReadHeadIsExact(message);
    var (session, user, name, rest) := ReadHead(message).value;
    ReadKeysIsExact(name, rest, key, algorithm);
  }

  /** The messages that are authentications for a key and algorithm. */
  ghost predicate IsAuthentication(message: seq<byte>, key: seq<byte>, algorithm: Algorithm) {
    |key| < U32_LIMIT && exists a :: Permitted(a) && message == Print(a, key, algorithm)
  }

  lemma ReadableIsAuthentication(message: seq<byte>, key: seq<byte>, algorithm: Algorithm)
    ensures IsAuthentication(message, key, algorithm) <==> ReadAuthentication(message, key, algorithm).Some?
  {
    if ReadAuthentication(message, key, algorithm).Some? {
      ReadIsExact(message, key, algorithm);
    }
    if IsAuthentication(message, key, algorithm) {
      var a :| Permitted(a) && message == Print(a, key, algorithm);
      ReadsPrinted(a, key, algorithm);
    }
  }

  method ValidHostKey(hostKey: seq<byte>) returns (valid: bool)
    ensures valid <==> IsHostKey(hostKey)
  {
    var fields := new Cursor(hostKey);
    var keyType := fields.String();
    return keyType.Ok? && keyType.value != [] && fields.remaining != [];
  }

  method ReadKeysMethod(name: seq<byte>, message: Cursor, key: seq<byte>, algorithm: Algorithm)
    returns (r: Result<(), InvalidData>)
    requires name == PlainMethod() || name == HostBoundMethod()
    modifies message
    ensures r.Ok? <==> ReadKeys(name, old(message.remaining), key, algorithm).Some?
  {
    var flag :- message.Byte();
    if flag != 1 {
      return Err(InvalidData);
    }
    var given :- message.String();
    if given != Name(algorithm) {
      return Err(InvalidData);
    }
    var keyBlob :- message.String();
    if keyBlob != key {
      return Err(InvalidData);
    }
    if name == HostBoundMethod() {
      var hostKey :- message.String();
      var valid := ValidHostKey(hostKey);
      if !valid {
        return Err(InvalidData);
      }
    }
    r := message.End();
  }

  /** Accepts exactly the printed authentication messages. */
  method ValidateAuthenticationMessage(text: seq<byte>, expectedKey: seq<byte>, algorithm: Algorithm)
    returns (r: Result<(), InvalidData>)
    ensures r.Ok? <==> IsAuthentication(text, expectedKey, algorithm)
  {
    ReadableIsAuthentication(text, expectedKey, algorithm);
    var message := new Cursor(text);
    var session :- message.String();
    if session == [] {
      return Err(InvalidData);
    }
    var tag :- message.Byte();
    if tag != USERAUTH_REQUEST {
      return Err(InvalidData);
    }
    var _ :- message.String();
    var service :- message.String();
    if service != Service() {
      return Err(InvalidData);
    }
    var name :- message.String();
    if name != PlainMethod() && name != HostBoundMethod() {
      return Err(InvalidData);
    }
    r := ReadKeysMethod(name, message, expectedKey, algorithm);
  }

  // The names of the algorithms, of the service and of the methods, in ASCII.

  lemma Ed25519Name()
    ensures Name(Ed25519) == [115, 115, 104, 45, 101, 100, 50, 53, 53, 49, 57]
  {
  }

  lemma RsaSha256Name()
    ensures Name(RsaSha256) == [114, 115, 97, 45, 115, 104, 97, 50, 45, 50, 53, 54]
  {
  }

  lemma RsaSha512Name()
    ensures Name(RsaSha512) == [114, 115, 97, 45, 115, 104, 97, 50, 45, 53, 49, 50]
  {
  }

  lemma ServiceName()
    ensures Service() == [115, 115, 104, 45, 99, 111, 110, 110, 101, 99, 116, 105, 111, 110]
  {
  }

  lemma PlainName()
    ensures PlainMethod() == [112, 117, 98, 108, 105, 99, 107, 101, 121]
  {
  }

  lemma HostBoundName()
    ensures HostBoundMethod() == PlainMethod() + Bytes("-hostbound-v00@openssh.com")
  {
  }

  /** Authentications by session 1 and user "u" with the key 9, piece by piece. */
  lemma PrintedAuthentication()
    ensures Print(Authentication([1], [117], None), [9], Ed25519) ==
      [0, 0, 0, 1, 1] + ([50] + ([0, 0, 0, 1, 117] + (([0, 0, 0, 14] + Service()) + (([0, 0, 0, 9] + PlainMethod())
      + ([1] + (([0, 0, 0, 11] + Name(Ed25519)) + [0, 0, 0, 1, 9]))))))
  {
    assert PrintKeys(None, [9], Ed25519) == [1] + (([0, 0, 0, 11] + Name(Ed25519)) + [0, 0, 0, 1, 9]);
  }

  /** A host-bound one names its own method, and has the host key last. */
  lemma PrintedHostBound(hostKey: seq<byte>)
    requires |hostKey| == 6 && IsHostKey(hostKey)
    ensures Print(Authentication([1], [117], Some(hostKey)), [9], RsaSha256) ==
      [0, 0, 0, 1, 1] + ([50] + ([0, 0, 0, 1, 117] + (([0, 0, 0, 14] + Service())
      + (([0, 0, 0, 35] + HostBoundMethod())
         + ([1] + (([0, 0, 0, 12] + Name(RsaSha256)) + ([0, 0, 0, 1, 9] + ([0, 0, 0, 6] + hostKey))))))))
  {
    assert PrintKeys(Some(hostKey), [9], RsaSha256) ==
      [1] + (([0, 0, 0, 12] + Name(RsaSha256)) + ([0, 0, 0, 1, 9] + ([0, 0, 0, 6] + hostKey)));
  }

  /** A host key: a nonempty type and something after it. */
  lemma HostKeyMeans(hostKey: seq<byte>)
    ensures IsHostKey(hostKey) <==>
      exists keyType, data | 0 < |keyType| < U32_LIMIT && data != [] :: hostKey == Str(keyType) + data
  {
    if IsHostKey(hostKey) {
      ReadStrIsExact(hostKey);
    }
    forall keyType, data | 0 < |keyType| < U32_LIMIT && data != [] && hostKey == Str(keyType) + data
      ensures IsHostKey(hostKey)
    {
      ReadsWhatWasPut(keyType, data);
    }
  }
}
