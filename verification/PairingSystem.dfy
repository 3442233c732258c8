/** All processes that share a pairing file, together with the device.

    Every lock-held section is one step. A request is built from a snapshot of the file
    and may be sent, delivered and answered at any later time, any number of times or
    never; a process acts on an answer at any later time too. A rotation mints a rotation
    key never used before, and a pairing attempt uses a fresh client ID. */
module PairingSystem {
  import opened Wrappers
  import opened Protocol
  import opened PairingFile

  // ---- Key lineages -----------------------------------------------------

  function Root(psk: Psk): string {
    match psk
    case Initial(clientId) => clientId
    case Derived(parent, _) => Root(parent)
  }

  function Depth(psk: Psk): nat {
    match psk
    case Initial(_) => 0
    case Derived(parent, _) => Depth(parent) + 1
  }

  /** `a` is `b` or a key that `b` was derived from. */
  predicate Precedes(a: Psk, b: Psk) {
    a == b || (b.Derived? && Precedes(a, b.parent))
  }

  lemma {:induction false} PrecedesIsShallower(a: Psk, b: Psk)
    requires Precedes(a, b)
    ensures a == b || Depth(a) < Depth(b)
    ensures Root(a) == Root(b)
  {
    if a != b {
      PrecedesIsShallower(a, b.parent);
    }
  }

  lemma {:induction false} PrecedesTransitive(a: Psk, b: Psk, c: Psk)
    requires Precedes(a, b) && Precedes(b, c)
    ensures Precedes(a, c)
  {
    if b != c {
      PrecedesTransitive(a, b, c.parent);
    }
  }

  /** Two keys in one lineage at the same depth are the same key. */
  lemma {:induction false} SameDepthSameKey(a: Psk, b: Psk, c: Psk)
    requires Precedes(a, c) && Precedes(b, c) && Depth(a) == Depth(b)
    ensures a == b
  {
    PrecedesIsShallower(a, c);
    PrecedesIsShallower(b, c);
    if a != c {
      SameDepthSameKey(a, b, c.parent);
    }
  }

  // ---- The device -------------------------------------------------------

  datatype RequestKind = FinishRequest | OrdinaryRequest | RemoveRequest

  /** A request as the pairing it was built from determines it. */
  datatype PairedRequest = PairedRequest(
    kind: RequestKind,
    deviceId: string,
    clientId: string,
    psk: Psk,
    rotationKey: Option<string>)

  datatype Binding = Binding(active: bool, psk: Psk, previous: Option<Psk>)

  /** What a device makes of a request: it activates under the pairing's key, adopts only
      the successor of its current key, and serves its previous key without rotating. */
  function Answer(binding: Binding, request: PairedRequest): Option<Binding> {
    if request.kind == FinishRequest then
      if request.psk == binding.psk then Some(binding.(active := true)) else None
    else if !binding.active then None
    else if request.psk == binding.psk then Some(binding)
    else if request.rotationKey.Some? && request.psk == Derived(binding.psk, request.rotationKey.value) then
      Some(Binding(true, request.psk, Some(binding.psk)))
    else if binding.previous == Some(request.psk) then Some(binding)
    else None
  }

  // ---- The system -------------------------------------------------------

  datatype Rotation = Rotation(clientId: string, from: nat, to: nat)

  datatype System = System(
    file: File,
    bindings: map<string, Binding>,
    retired: set<string>,
    attempts: set<string>,
    minted: map<string, Psk>,
    sent: set<PairedRequest>,
    answered: set<PairedRequest>,
    rotations: seq<Rotation>)

  const INITIAL := System(None, map[], {}, {}, map[], {}, {}, [])

  datatype Action =
    | StartPairing(pairing: Pairing, now: nat)
    | RollBack(clientId: string)
    | Enroll(clientId: string)
    | Send(kind: RequestKind)
    | Deliver(request: PairedRequest)
    | FinishPairing(request: PairedRequest)
    | ConfirmRotation(request: PairedRequest)
    | Rotate(now: nat, rotationKey: string)
    | RemovePairing(request: PairedRequest)
    | AbortByUser
    | RemoveByUser
    | Revoke(clientId: string)

  function Snapshot(file: File, kind: RequestKind): Result<PairedRequest, ConfigurationError> {
    match if kind == FinishRequest then ReadPending(file) else ReadActive(file)
    case Err(error) => Err(error)
    case Ok(p) => Ok(PairedRequest(kind, p.deviceId, p.clientId, p.clientPsk, p.rotationKey))
  }

  /** When a step can happen. Steps that act on an answer need an authenticated one. */
  predicate Enabled(s: System, a: Action) {
    match a
    case StartPairing(p, now) =>
      p.clientId !in s.attempts && p.clientPsk == Initial(p.clientId) && now < U64_LIMIT
    case RollBack(clientId) => clientId in s.attempts
    case Enroll(clientId) => clientId in s.attempts && clientId !in s.bindings && clientId !in s.retired
    case Send(kind) => Snapshot(s.file, kind).Ok?
    case Deliver(request) =>
      request in s.sent && request.clientId in s.bindings && Answer(s.bindings[request.clientId], request).Some?
    case FinishPairing(request) => request in s.answered && request.kind == FinishRequest
    case ConfirmRotation(request) =>
      request in s.answered && request.kind == OrdinaryRequest && request.rotationKey.Some?
    case Rotate(now, rotationKey) => rotationKey !in s.minted && now < U64_LIMIT
    case RemovePairing(request) => request in s.answered && request.kind == RemoveRequest
    case AbortByUser => true
    case RemoveByUser => true
    case Revoke(clientId) => clientId in s.bindings
  }

  function Rotates(s: System, now: nat): bool {
    Due(s.file, now)
  }

  function Perform(s: System, a: Action): System
    requires Enabled(s, a)
  {
    match a
    case StartPairing(p, now) =>
      var updated := Begun(s.file, p, now);
      s.(file := Replace(s.file, updated),
         attempts := if updated.Ok? then s.attempts + {p.clientId} else s.attempts)
    case RollBack(clientId) => s.(file := Replace(s.file, Aborted(s.file, Some(clientId))))
    case Enroll(clientId) => s.(bindings := s.bindings[clientId := Binding(false, Initial(clientId), None)])
    case Send(kind) => s.(sent := s.sent + {Snapshot(s.file, kind).value})
    case Deliver(request) =>
      var binding := Answer(s.bindings[request.clientId], request).value;
      if request.kind == RemoveRequest then
        s.(bindings := s.bindings - {request.clientId}, retired := s.retired + {request.clientId},
           answered := s.answered + {request})
      else
        s.(bindings := s.bindings[request.clientId := binding], answered := s.answered + {request})
    case FinishPairing(request) => s.(file := Replace(s.file, Finished(s.file, request.clientId)))
    case ConfirmRotation(request) => s.(file := Replace(s.file, Cleared(s.file, request.rotationKey.value)))
    case Rotate(now, rotationKey) =>
      if Rotates(s, now) then
        var p := ReadActive(s.file).value;
        s.(file := Replace(s.file, Rotated(s.file, now, rotationKey)),
           minted := s.minted[rotationKey := Derived(p.clientPsk, rotationKey)],
           rotations := s.rotations + [Rotation(p.clientId, p.rotatedAt, now)])
      else
        s.(file := Replace(s.file, Rotated(s.file, now, rotationKey)))
    case RemovePairing(request) =>
      s.(file := Replace(s.file, RemovedActive(s.file, request.deviceId, request.clientId)))
    case AbortByUser => s.(file := Replace(s.file, Aborted(s.file, None)))
    case RemoveByUser => s.(file := Replace(s.file, Removed(s.file)))
    case Revoke(clientId) => s.(bindings := s.bindings - {clientId}, retired := s.retired + {clientId})
  }

  /** A run performs enabled steps in any order. */
  ghost predicate Run(s: System, actions: seq<Action>, t: System)
    decreases |actions|
  {
    if actions == [] then s == t
    else Enabled(s, actions[0]) && Run(Perform(s, actions[0]), actions[1..], t)
  }

  ghost predicate Reachable(s: System) {
    exists actions :: Run(INITIAL, actions, s)
  }

  // ---- The invariant ----------------------------------------------------

  /** The file's key is the device's, or the successor by the rotation key the file holds. */
  predicate Agree(p: Pairing, devicePsk: Psk) {
    || p.clientPsk == devicePsk
    || (p.rotationKey.Some? && p.clientPsk == Derived(devicePsk, p.rotationKey.value))
  }

  predicate MintedKey(s: System, rotationKey: Option<string>, psk: Psk) {
    rotationKey.Some? ==> rotationKey.value in s.minted && s.minted[rotationKey.value] == psk
  }

  predicate FileSound(s: System) {
    s.file.Some? ==>
      && WellFormed(s.file.value)
      && var p := Parse(s.file.value);
      && p.clientId in s.attempts
      && Root(p.clientPsk) == p.clientId
      && MintedKey(s, p.rotationKey, p.clientPsk)
      && (p.pending ==> p.clientPsk == Initial(p.clientId) && p.rotationKey == None)
      && (!p.pending ==> p.clientId in s.bindings || p.clientId in s.retired)
      && (p.clientId in s.bindings ==>
            && Agree(p, s.bindings[p.clientId].psk)
            && (!p.pending ==> s.bindings[p.clientId].active))
  }

  ghost predicate BindingsSound(s: System) {
    && s.retired <= s.attempts
    && (forall c <- s.bindings ::
          && c in s.attempts && c !in s.retired
          && Root(s.bindings[c].psk) == c
          && (s.bindings[c].previous.Some? ==> Precedes(s.bindings[c].previous.value, s.bindings[c].psk)))
  }

  predicate MintedSound(s: System) {
    forall k <- s.minted :: s.minted[k].Derived? && s.minted[k].rotationKey == k
  }

  predicate RequestSound(s: System, q: PairedRequest) {
    && q.clientId in s.attempts
    && Root(q.psk) == q.clientId
    && MintedKey(s, q.rotationKey, q.psk)
    && (s.file.Some? && WellFormed(s.file.value) && Parse(s.file.value).clientId == q.clientId ==>
          Precedes(q.psk, Parse(s.file.value).clientPsk))
  }

  predicate AnswerSound(s: System, q: PairedRequest) {
    && q in s.sent
    && (q.clientId in s.bindings ==>
          && Precedes(q.psk, s.bindings[q.clientId].psk)
          && s.bindings[q.clientId].active)
    && (q.clientId in s.bindings || q.clientId in s.retired)
  }

  ghost predicate Sound(s: System) {
    && FileSound(s)
    && BindingsSound(s)
    && MintedSound(s)
    && (forall q <- s.sent :: RequestSound(s, q))
    && (forall q <- s.answered :: AnswerSound(s, q))
  }

  /** Steps that leave the file alone or delete it, and never change a binding's key. */
  lemma QuietStepIsSound(s: System, a: Action)
    requires Sound(s) && Enabled(s, a)
    requires a.RollBack? || a.Enroll? || a.RemovePairing? || a.AbortByUser? || a.RemoveByUser? || a.Revoke?
    ensures Sound(Perform(s, a))
  {
    var t := Perform(s, a);
    forall q <- t.sent
      ensures RequestSound(t, q)
    {
      assert RequestSound(s, q);
    }
    forall q <- t.answered
      ensures AnswerSound(t, q)
    {
      assert AnswerSound(s, q);
    }
  }

  lemma StartPairingIsSound(s: System, a: Action)
    requires Sound(s) && Enabled(s, a) && a.StartPairing?
    ensures Sound(Perform(s, a))
  {
    var t := Perform(s, a);
    forall q <- t.sent
      ensures RequestSound(t, q)
    {
      assert RequestSound(s, q);
    }
    forall q <- t.answered
      ensures AnswerSound(t, q)
    {
      assert AnswerSound(s, q);
    }
  }

  lemma SendIsSound(s: System, a: Action)
    requires Sound(s) && Enabled(s, a) && a.Send?
    ensures Sound(Perform(s, a))
  {
    var t := Perform(s, a);
    forall q <- t.sent
      ensures RequestSound(t, q)
    {
      if q in s.sent {
        assert RequestSound(s, q);
      }
    }
    forall q <- t.answered
      ensures AnswerSound(t, q)
    {
      assert AnswerSound(s, q);
    }
  }

  /** An answer moves the device's key only to the key the file already has. */
  lemma AnswerFollowsFile(s: System, request: PairedRequest)
    requires Sound(s) && Enabled(s, Deliver(request))
    ensures var binding := s.bindings[request.clientId];
      var after := Answer(binding, request).value;
      && after.active
      && Precedes(binding.psk, after.psk) && Precedes(request.psk, after.psk)
      && Root(after.psk) == request.clientId
      && (after.previous.Some? ==> Precedes(after.previous.value, after.psk))
      && (s.file.Some? && Parse(s.file.value).clientId == request.clientId ==>
            Agree(Parse(s.file.value), after.psk))
  {
    assert RequestSound(s, request);
    var binding := s.bindings[request.clientId];
    var after := Answer(binding, request).value;
    if after.psk != binding.psk && s.file.Some? && Parse(s.file.value).clientId == request.clientId {
      var p := Parse(s.file.value);
      PrecedesIsShallower(request.psk, p.clientPsk);
      if p.clientPsk == binding.psk {
        assert false;
      }
      SameDepthSameKey(request.psk, p.clientPsk, p.clientPsk);
    }
  }

  lemma DeliverIsSound(s: System, a: Action)
    requires Sound(s) && Enabled(s, a) && a.Deliver?
    ensures Sound(Perform(s, a))
  {
    var t := Perform(s, a);
    AnswerFollowsFile(s, a.request);
    forall q <- t.sent
      ensures RequestSound(t, q)
    {
      assert RequestSound(s, q);
    }
    forall q <- t.answered
      ensures AnswerSound(t, q)
    {
      if q in s.answered {
        assert AnswerSound(s, q);
        if q.clientId == a.request.clientId && q.clientId in t.bindings {
          PrecedesTransitive(q.psk, s.bindings[q.clientId].psk, t.bindings[q.clientId].psk);
        }
      }
    }
  }

  lemma FinishPairingIsSound(s: System, a: Action)
    requires Sound(s) && Enabled(s, a) && a.FinishPairing?
    ensures Sound(Perform(s, a))
  {
    var t := Perform(s, a);
    assert AnswerSound(s, a.request);
    forall q <- t.sent
      ensures RequestSound(t, q)
    {
      assert RequestSound(s, q);
    }
    forall q <- t.answered
      ensures AnswerSound(t, q)
    {
      assert AnswerSound(s, q);
    }
  }

  /** A rotation key is cleared only when the device holds the key it leads to. */
  lemma ClearedKeyIsConfirmed(s: System, request: PairedRequest)
    requires Sound(s) && Enabled(s, ConfirmRotation(request)) && s.file.Some?
    requires HasTextOf(s.file.value, "rotation_key", request.rotationKey.value)
    ensures var p := Parse(s.file.value);
      && p.clientId == request.clientId && p.clientPsk == request.psk
      && (p.clientId in s.bindings ==> s.bindings[p.clientId].psk == p.clientPsk)
  {
    assert AnswerSound(s, request);
    assert RequestSound(s, request);
    var p := Parse(s.file.value);
    assert p.clientPsk == request.psk;
    if p.clientId in s.bindings {
      PrecedesIsShallower(request.psk, s.bindings[p.clientId].psk);
    }
  }

  lemma ConfirmRotationIsSound(s: System, a: Action)
    requires Sound(s) && Enabled(s, a) && a.ConfirmRotation?
    ensures Sound(Perform(s, a))
  {
    var t := Perform(s, a);
    if t.file != s.file {
      ClearedKeyIsConfirmed(s, a.request);
    }
    forall q <- t.sent
      ensures RequestSound(t, q)
    {
      assert RequestSound(s, q);
    }
    forall q <- t.answered
      ensures AnswerSound(t, q)
    {
      assert AnswerSound(s, q);
    }
  }

  lemma RotateIsSound(s: System, a: Action)
    requires Sound(s) && Enabled(s, a) && a.Rotate?
    ensures Sound(Perform(s, a))
  {
    var t := Perform(s, a);
    forall q <- t.sent
      ensures RequestSound(t, q)
    {
      assert RequestSound(s, q);
    }
    forall q <- t.answered
      ensures AnswerSound(t, q)
    {
      assert AnswerSound(s, q);
    }
  }

  lemma StepIsSound(s: System, a: Action)
    requires Sound(s) && Enabled(s, a)
    ensures Sound(Perform(s, a))
  {
    match a
    case StartPairing(_, _) => StartPairingIsSound(s, a);
    case Send(_) => SendIsSound(s, a);
    case Deliver(_) => DeliverIsSound(s, a);
    case FinishPairing(_) => FinishPairingIsSound(s, a);
    case ConfirmRotation(_) => ConfirmRotationIsSound(s, a);
    case Rotate(_, _) => RotateIsSound(s, a);
    case _ => QuietStepIsSound(s, a);
  }

  lemma {:induction false} RunIsSound(s: System, actions: seq<Action>, t: System)
    requires Sound(s) && Run(s, actions, t)
    ensures Sound(t)
    decreases |actions|
  {
    if actions != [] {
      StepIsSound(s, actions[0]);
      RunIsSound(Perform(s, actions[0]), actions[1..], t);
    }
  }

  lemma ReachableIsSound(s: System)
    requires Reachable(s)
    ensures Sound(s)
  {
    var actions :| Run(INITIAL, actions, s);
    RunIsSound(INITIAL, actions, s);
  }
}
