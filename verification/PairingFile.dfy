/** The pairing file. Every operation holds the directory lock while it reads, edits and
    replaces the file, so each is one function of the contents found under the lock. */
module PairingFile {
  import opened Wrappers
  import opened Protocol

  // ---- Contents ---------------------------------------------------------

  datatype Json = Bool(flag: bool) | Number(number: nat) | Text(text: string) | Key(psk: Psk) | Null | Composite

  type Object = map<string, Json>

  /** The file, if there is one. */
  type File = Option<Object>

  const U64_LIMIT: nat := 0x1_0000_0000_0000_0000

  const PSK_ROTATION_INTERVAL_SECONDS: nat := 24 * 60 * 60

  datatype Pairing = Pairing(
    pending: bool,
    deviceId: string,
    clientId: string,
    clientToken: string,
    clientPsk: Psk,
    deviceKey: string,
    rotatedAt: nat,
    rotationKey: Option<string>)

  predicate HasText(o: Object, member: string) {
    member in o && o[member].Text?
  }

  predicate HasTextOf(o: Object, member: string, text: string) {
    HasText(o, member) && o[member].text == text
  }

  predicate WellFormed(o: Object) {
    && ("pending" in o ==> o["pending"].Bool?)
    && HasText(o, "device_id")
    && HasText(o, "client_id")
    && HasText(o, "client_token")
    && "client_psk" in o && o["client_psk"].Key?
    && HasText(o, "device_key")
    && "rotated_at" in o && o["rotated_at"].Number? && o["rotated_at"].number < U64_LIMIT
    && ("rotation_key" in o ==> o["rotation_key"].Text? || o["rotation_key"].Null?)
  }

  predicate IsPending(o: Object) {
    "pending" in o && o["pending"] == Bool(true)
  }

  function Parse(o: Object): Pairing
    requires WellFormed(o)
  {
    Pairing(
      IsPending(o),
      o["device_id"].text,
      o["client_id"].text,
      o["client_token"].text,
      o["client_psk"].psk,
      o["device_key"].text,
      o["rotated_at"].number,
      if HasText(o, "rotation_key") then Some(o["rotation_key"].text) else None)
  }

  // ---- What each operation makes of the file ----------------------------

  type Updated = Result<File, ConfigurationError>

  function ReadActive(file: File): Result<Pairing, ConfigurationError> {
    if file == None then Err(NoPairing)
    else if !WellFormed(file.value) then Err(Invalid)
    else if IsPending(file.value) then Err(PairingPending)
    else Ok(Parse(file.value))
  }

  /** The object of a pending pairing. A delayed operation names the attempt it belongs to. */
  function ReadPendingObject(file: File, expected: Option<string>): Result<Object, ConfigurationError> {
    if file == None then Err(NoPairing)
    else if !IsPending(file.value) then Err(PairingNotPending)
    else if expected.Some? && !HasTextOf(file.value, "client_id", expected.value) then Err(PairingChanged)
    else Ok(file.value)
  }

  function ReadPending(file: File): Result<Pairing, ConfigurationError> {
    match ReadPendingObject(file, None)
    case Err(error) => Err(error)
    case Ok(members) => if WellFormed(members) then Ok(Parse(members)) else Err(Invalid)
  }

  function PresentError(members: Object): ConfigurationError {
    if IsPending(members) then PairingPending
    else if WellFormed(members) then PairingExists
    else Invalid
  }

  function PendingObject(pairing: Pairing, now: nat): Object {
    map["pending" := Bool(true),
        "device_id" := Json.Text(pairing.deviceId),
        "client_id" := Json.Text(pairing.clientId),
        "client_token" := Json.Text(pairing.clientToken),
        "client_psk" := Key(pairing.clientPsk),
        "device_key" := Json.Text(pairing.deviceKey),
        "rotated_at" := Number(now)]
  }

  function Begun(file: File, pairing: Pairing, now: nat): Updated {
    if file.Some? then Err(PresentError(file.value)) else Ok(Some(PendingObject(pairing, now)))
  }

  function Finished(file: File, clientId: string): Updated {
    match ReadPendingObject(file, Some(clientId))
    case Err(error) => Err(error)
    case Ok(members) => Ok(Some(members - {"pending"}))
  }

  function Aborted(file: File, expected: Option<string>): Updated {
    match ReadPendingObject(file, expected)
    case Err(error) => Err(error)
    case Ok(_) => Ok(None)
  }

  function Removed(file: File): Updated {
    if file == None then Err(NoPairing) else Ok(None)
  }

  function RemovedActive(file: File, deviceId: string, clientId: string): Updated {
    if file == None then Ok(None)
    else if !WellFormed(file.value) then Err(Invalid)
    else
      var pairing := Parse(file.value);
      if pairing.pending || pairing.deviceId != deviceId || pairing.clientId != clientId then Err(PairingChanged)
      else Ok(None)
  }

  function Cleared(file: File, rotationKey: string): Updated {
    if file == None then Err(NoPairing)
    else if HasTextOf(file.value, "rotation_key", rotationKey) then Ok(Some(file.value - {"rotation_key"}))
    else Ok(file)
  }

  /** The file after an operation: what it makes of the contents, or the contents as they were. */
  function Replace(file: File, updated: Updated): File {
    if updated.Ok? then updated.value else file
  }

  function RotatedBefore(now: nat): nat {
    if now < PSK_ROTATION_INTERVAL_SECONDS then 0 else now - PSK_ROTATION_INTERVAL_SECONDS
  }

  predicate RotationDue(pairing: Pairing, now: nat) {
    pairing.rotationKey == None && pairing.rotatedAt < RotatedBefore(now)
  }

  predicate Due(file: File, now: nat) {
    ReadActive(file).Ok? && RotationDue(ReadActive(file).value, now)
  }

  function WithRotation(members: Object, psk: Psk, rotationKey: string, rotatedAt: nat): Object {
    members["client_psk" := Key(psk)]["rotation_key" := Json.Text(rotationKey)]["rotated_at" := Number(rotatedAt)]
  }

  /** The locked half of a rotation, which derives the successor of the stored key. */
  function Rotated(file: File, now: nat, rotationKey: string): Updated {
    match ReadActive(file)
    case Err(error) => Err(error)
    case Ok(pairing) =>
      if RotationDue(pairing, now)
      then Ok(Some(WithRotation(file.value, Derived(pairing.clientPsk, rotationKey), rotationKey, now)))
      else Ok(file)
  }

  // ---- What the operations mean for the pairing -------------------------

  /** A pending pairing that was begun reads back as it was, without a rotation; an existing file
      is never replaced, and is what the error says. */
  lemma BegunMeans(file: File, pairing: Pairing, now: nat)
    requires now < U64_LIMIT
    ensures file == None ==>
      && Begun(file, pairing, now).Ok?
      && ReadPending(Begun(file, pairing, now).value) ==
           Ok(pairing.(pending := true, rotatedAt := now, rotationKey := None))
      && ReadActive(Begun(file, pairing, now).value) == Err(PairingPending)
    ensures file.Some? ==>
      Begun(file, pairing, now) ==
        Err(if ReadPendingObject(file, None).Ok? then PairingPending
            else if ReadActive(file).Ok? then PairingExists else Invalid)
  {
  }

  /** What is read is what the members of the object say. */
  lemma ReadMeans(file: File)
    ensures file == None ==> ReadActive(file) == Err(NoPairing) && ReadPending(file) == Err(NoPairing)
    ensures file.Some? && "pending" in file.value && file.value["pending"] == Bool(true) ==>
      ReadActive(file) in {Err(PairingPending), Err(Invalid)}
    ensures file.Some? && ("pending" !in file.value || file.value["pending"] != Bool(true)) ==>
      ReadPending(file) == Err(PairingNotPending)
    ensures ReadActive(file).Ok? ==> Stores(file.value, ReadActive(file).value) && !ReadActive(file).value.pending
    ensures ReadPending(file).Ok? ==> Stores(file.value, ReadPending(file).value) && ReadPending(file).value.pending
    ensures forall p | file.Some? && Stores(file.value, p) ::
      if p.pending then ReadPending(file) == Ok(p) else ReadActive(file) == Ok(p)
  {
  }

  /** The members of an object that holds a pairing. */
  predicate Stores(o: Object, p: Pairing) {
    && ("pending" in o ==> o["pending"] == Bool(p.pending)) && ("pending" !in o ==> !p.pending)
    && "device_id" in o && o["device_id"] == Json.Text(p.deviceId)
    && "client_id" in o && o["client_id"] == Json.Text(p.clientId)
    && "client_token" in o && o["client_token"] == Json.Text(p.clientToken)
    && "client_psk" in o && o["client_psk"] == Key(p.clientPsk)
    && "device_key" in o && o["device_key"] == Json.Text(p.deviceKey)
    && "rotated_at" in o && o["rotated_at"] == Number(p.rotatedAt) && p.rotatedAt < 0x1_0000_0000_0000_0000
    && (p.rotationKey.Some? ==> "rotation_key" in o && o["rotation_key"] == Json.Text(p.rotationKey.value))
    && (p.rotationKey == None ==> "rotation_key" in o ==> o["rotation_key"] == Null)
  }

  /** A finish makes the pending attempt that it names active, and that is all it does: any other
      file stays as it is, with the reason. */
  lemma FinishedMeans(file: File, clientId: string)
    ensures ReadPending(file).Ok? && ReadPending(file).value.clientId == clientId ==>
      && Finished(file, clientId).Ok?
      && ReadActive(Finished(file, clientId).value) == Ok(ReadPending(file).value.(pending := false))
    ensures ReadPending(file).Ok? && ReadPending(file).value.clientId != clientId ==>
      Finished(file, clientId) == Err(PairingChanged)
    ensures file == None ==> Finished(file, clientId) == Err(NoPairing)
    ensures ReadActive(file).Ok? ==> Finished(file, clientId) == Err(PairingNotPending)
    ensures Finished(file, clientId).Ok? ==>
      file.Some? && "client_id" in file.value && file.value["client_id"] == Json.Text(clientId)
  {
  }

  /** An abort deletes a pending attempt, and if it names one only that. */
  lemma AbortedMeans(file: File, expected: Option<string>)
    ensures ReadPending(file).Ok? ==>
      Aborted(file, expected) ==
        if expected == None || expected == Some(ReadPending(file).value.clientId) then Ok(None) else Err(PairingChanged)
    ensures ReadActive(file).Ok? ==> Aborted(file, expected) == Err(PairingNotPending)
    ensures file == None ==> Aborted(file, expected) == Err(NoPairing)
    ensures Aborted(file, expected).Ok? ==> Aborted(file, expected).value == None
  {
  }

  /** The user's own removal deletes whatever there is. */
  lemma RemovedMeans(file: File)
    ensures Removed(file) == if file.Some? then Ok(None) else Err(NoPairing)
  {
  }

  /** A removal agreed to by the device deletes the active pairing it was for, and nothing else. */
  lemma RemovedActiveMeans(file: File, deviceId: string, clientId: string)
    ensures RemovedActive(file, deviceId, clientId).Ok? ==>
      RemovedActive(file, deviceId, clientId).value == None
    ensures ReadActive(file).Ok? ==>
      RemovedActive(file, deviceId, clientId) ==
        if ReadActive(file).value.deviceId == deviceId && ReadActive(file).value.clientId == clientId then Ok(None)
        else Err(PairingChanged)
    ensures file == None ==> RemovedActive(file, deviceId, clientId) == Ok(None)
    ensures ReadPending(file).Ok? ==> RemovedActive(file, deviceId, clientId) == Err(PairingChanged)
    ensures RemovedActive(file, deviceId, clientId).Ok? ==> file == None || ReadActive(file).Ok?
  {
  }

  /** A confirmed rotation loses its key, and only that; the file is left alone if it holds another. */
  lemma ClearedMeans(file: File, rotationKey: string)
    ensures file == None ==> Cleared(file, rotationKey) == Err(NoPairing)
    ensures file.Some? ==> Cleared(file, rotationKey).Ok? && Cleared(file, rotationKey).value.Some?
    ensures file.Some? && "rotation_key" in file.value && file.value["rotation_key"] == Json.Text(rotationKey) ==>
      Cleared(file, rotationKey).value == Some(map m | m in file.value && m != "rotation_key" :: file.value[m])
    ensures file.Some? && ("rotation_key" in file.value ==> file.value["rotation_key"] != Json.Text(rotationKey)) ==>
      Cleared(file, rotationKey).value == file
    ensures ReadActive(file).Ok? ==>
      var p := ReadActive(file).value;
      ReadActive(Cleared(file, rotationKey).value) ==
        Ok(if p.rotationKey == Some(rotationKey) then p.(rotationKey := None) else p)
  {
    if file.Some? {
      var rest := map m | m in file.value && m != "rotation_key" :: file.value[m];
      assert file.value - {"rotation_key"} == rest;
    }
  }

  /** A rotation is due exactly more than a day after the last, if none is unconfirmed, and then
      stores the successor of the key with what it was derived with. */
  lemma RotatedMeans(file: File, now: nat, rotationKey: string)
    ensures ReadActive(file).Err? ==> Rotated(file, now, rotationKey) == Err(ReadActive(file).error) && !Due(file, now)
    ensures ReadActive(file).Ok? ==>
      var p := ReadActive(file).value;
      && Rotated(file, now, rotationKey).Ok?
      && (Due(file, now) <==> p.rotationKey == None && now > p.rotatedAt + 86_400)
      && (Due(file, now) && now < U64_LIMIT ==>
            ReadActive(Rotated(file, now, rotationKey).value) ==
              Ok(p.(clientPsk := Derived(p.clientPsk, rotationKey), rotationKey := Some(rotationKey), rotatedAt := now)))
      && (!Due(file, now) ==> Rotated(file, now, rotationKey).value == file)
  {
  }

  // ---- The operations ---------------------------------------------------

  /** An operation makes of the contents it found what `updated` says, or leaves them. */
  predicate Applied(updated: Updated, found: File, contents: File, r: Result<(), ConfigurationError>) {
    && contents == Replace(found, updated)
    && match updated
       case Ok(_) => r.Ok?
       case Err(error) => r == Err(error)
  }

  /** The file as one process sees it. `others` says what the other processes have made of
      it by each time this process looks; they keep it a JSON object. */
  class PairingFile {
    const others: nat -> Option<File>
    var turn: nat
    var contents: File

    constructor (others: nat -> Option<File>, contents: File)
      ensures this.others == others && this.contents == contents && turn == 0
    {
      this.others := others;
      this.turn := 0;
      this.contents := contents;
    }

    /** What the look number `n` finds, if this process knew the file as `known`. */
    function Sight(n: nat, known: File): File {
      if others(n).Some? then others(n).value else known
    }

    /** What the next look will find. */
    function Found(): File
      reads this
    {
      Sight(turn, contents)
    }

    method Look()
      modifies this
      ensures turn == old(turn) + 1 && contents == old(Found())
    {
      if others(turn).Some? {
        contents := others(turn).value;
      }
      turn := turn + 1;
    }

    method Read() returns (r: Result<Pairing, ConfigurationError>)
      modifies this
      ensures turn == old(turn) + 1 && contents == old(Found())
      ensures r == ReadActive(contents)
    {
      Look();
      return ReadActive(contents);
    }

    method ReadPendingPairing() returns (r: Result<Pairing, ConfigurationError>)
      modifies this
      ensures turn == old(turn) + 1 && contents == old(Found())
      ensures r == ReadPending(contents)
    {
      Look();
      return ReadPending(contents);
    }

    // Each operation below holds the lock from its one look to its end.

    method WritePending(pairing: Pairing, now: nat) returns (r: Result<(), ConfigurationError>)
      modifies this
      ensures turn == old(turn) + 1
      ensures Applied(Begun(old(Found()), pairing, now), old(Found()), contents, r)
    {
      Look();
      if contents.Some? {
        return Err(PresentError(contents.value));
      }
      var members: Object := map["pending" := Bool(true)];
      members := members["device_id" := Json.Text(pairing.deviceId)];
      members := members["client_id" := Json.Text(pairing.clientId)];
      members := members["client_token" := Json.Text(pairing.clientToken)];
      members := members["client_psk" := Key(pairing.clientPsk)];
      members := members["device_key" := Json.Text(pairing.deviceKey)];
      members := members["rotated_at" := Number(now)];
      assert members == PendingObject(pairing, now);
      contents := Some(members);
      return Ok(());
    }

    method FinishPending(clientId: string) returns (r: Result<(), ConfigurationError>)
      modifies this
      ensures turn == old(turn) + 1
      ensures Applied(Finished(old(Found()), clientId), old(Found()), contents, r)
    {
      Look();
      var members :- ReadPendingObject(contents, Some(clientId));
      members := members - {"pending"};
      contents := Some(members);
      return Ok(());
    }

    method AbortPending(expected: Option<string>) returns (r: Result<(), ConfigurationError>)
      modifies this
      ensures turn == old(turn) + 1
      ensures Applied(Aborted(old(Found()), expected), old(Found()), contents, r)
    {
      Look();
      var _ :- ReadPendingObject(contents, expected);
      contents := None;
      return Ok(());
    }

    method Remove() returns (r: Result<(), ConfigurationError>)
      modifies this
      ensures turn == old(turn) + 1
      ensures Applied(Removed(old(Found())), old(Found()), contents, r)
    {
      Look();
      if contents == None {
        return Err(NoPairing);
      }
      contents := None;
      return Ok(());
    }

    method RemoveActive(deviceId: string, clientId: string) returns (r: Result<(), ConfigurationError>)
      modifies this
      ensures turn == old(turn) + 1
      ensures Applied(RemovedActive(old(Found()), deviceId, clientId), old(Found()), contents, r)
    {
      Look();
      if contents == None {
        return Ok(());
      }
      if !WellFormed(contents.value) {
        return Err(Invalid);
      }
      var pairing := Parse(contents.value);
      if pairing.pending || pairing.deviceId != deviceId || pairing.clientId != clientId {
        return Err(PairingChanged);
      }
      contents := None;
      return Ok(());
    }

    method ClearRotationKey(rotationKey: string) returns (r: Result<(), ConfigurationError>)
      modifies this
      ensures turn == old(turn) + 1
      ensures Applied(Cleared(old(Found()), rotationKey), old(Found()), contents, r)
    {
      Look();
      if contents == None {
        return Err(NoPairing);
      }
      var members := contents.value;
      if !HasTextOf(members, "rotation_key", rotationKey) {
        return Ok(());
      }
      members := members - {"rotation_key"};
      contents := Some(members);
      return Ok(());
    }

    /** The number of the next look of a rotation, and the contents that decide about it: those
        found first, or those found under the lock, which is taken if the first look says so. */
    function Deciding(n: nat, first: File, now: nat): (nat, File) {
      if Due(first, now) then (n + 1, Sight(n, first)) else (n, first)
    }

    /** Rotates the key if that is due by the clock reading `now`. The file is looked at
        twice; only what is found under the lock decides. */
    method MaybeRotate(now: nat, rotationKey: string) returns (r: Result<bool, ConfigurationError>)
      modifies this
      ensures !Due(old(Found()), now) ==> turn == old(turn) + 1 && contents == old(Found()) && r != Ok(true)
      ensures Due(old(Found()), now) ==>
        var found := if others(old(turn) + 1).Some? then others(old(turn) + 1).value else old(Found());
        turn == old(turn) + 2 && (!Due(found, now) ==> contents == found && r != Ok(true))
      ensures var (n, found) := Deciding(old(turn) + 1, old(Found()), now);
        && turn == n
        && contents == Replace(found, Rotated(found, now, rotationKey))
        && match ReadActive(found)
           case Ok(_) => r == Ok(Due(found, now))
           case Err(error) => r == Err(error)
    {
      var found :- Read();
      if found.rotationKey.Some? || !(found.rotatedAt < RotatedBefore(now)) {
        return Ok(false);
      }
      Look();
      var pairing :- ReadActive(contents);
      if pairing.rotationKey.Some? || !(pairing.rotatedAt < RotatedBefore(now)) {
        return Ok(false);
      }
      var members := contents.value;
      members := members["client_psk" := Key(Derived(pairing.clientPsk, rotationKey))];
      members := members["rotation_key" := Json.Text(rotationKey)];
      members := members["rotated_at" := Number(now)];
      contents := Some(members);
      return Ok(true);
    }
  }
}
