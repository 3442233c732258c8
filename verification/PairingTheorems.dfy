/** What every run of the pairing system guarantees. */
module PairingTheorems {
  import opened Wrappers
  import opened Protocol
  import opened PairingFile
  import opened PairingSystem

  // ---- Key agreement ----------------------------------------------------

  /** In every reachable state an active pairing's key is the device's key or its one
      successor, named by the rotation key in the file: one rotation is unconfirmed at most. */
  lemma KeysAgree(s: System)
    requires Reachable(s)
    requires ReadActive(s.file).Ok? && ReadActive(s.file).value.clientId in s.bindings
    ensures var p, binding := ReadActive(s.file).value, s.bindings[ReadActive(s.file).value.clientId];
      && binding.active
      && Agree(p, binding.psk)
      && Depth(binding.psk) <= Depth(p.clientPsk) <= Depth(binding.psk) + 1
      && (p.rotationKey == None ==> p.clientPsk == binding.psk)
  {
    ReachableIsSound(s);
  }

  /** A request built from the current file authenticates, whatever the other processes
      did before, and leaves the device with the key of the file. */
  lemma CurrentRequestAuthenticates(s: System, kind: RequestKind)
    requires Reachable(s) && Snapshot(s.file, kind).Ok?
    requires Snapshot(s.file, kind).value.clientId in s.bindings
    ensures var request := Snapshot(s.file, kind).value;
      && Answer(s.bindings[request.clientId], request).Some?
      && Answer(s.bindings[request.clientId], request).value.psk == request.psk
  {
    ReachableIsSound(s);
  }

  /** An older snapshot is answered only under a key the device still serves, and never
      moves the device away from the key of the file. */
  lemma DelayedRequestIsHarmless(s: System, request: PairedRequest)
    requires Reachable(s) && Enabled(s, Deliver(request))
    requires ReadActive(s.file).Ok? && ReadActive(s.file).value.clientId == request.clientId
    ensures var before := s.bindings[request.clientId];
      var after := Answer(before, request).value;
      && after.psk in {before.psk, ReadActive(s.file).value.clientPsk}
      && (request.psk in {before.psk, ReadActive(s.file).value.clientPsk} || before.previous == Some(request.psk))
  {
    ReachableIsSound(s);
    AnswerFollowsFile(s, request);
    var p := ReadActive(s.file).value;
    var before := s.bindings[request.clientId];
    var after := Answer(before, request).value;
    assert RequestSound(s, request);
    if after.psk != before.psk {
      PrecedesIsShallower(before.psk, after.psk);
      PrecedesIsShallower(request.psk, p.clientPsk);
    }
  }

  /** What a device answers: an activation under its own key, and once active also a rotation of that
      key, which it adopts, and a request under the key before it, which changes nothing. */
  lemma AnswerMeans(b: Binding, q: PairedRequest)
    ensures q.kind == FinishRequest ==>
      Answer(b, q) == if q.psk == b.psk then Some(Binding(true, b.psk, b.previous)) else None
    ensures q.kind != FinishRequest && !b.active ==> Answer(b, q) == None
    ensures q.kind != FinishRequest && b.active ==>
      && (q.psk == b.psk ==> Answer(b, q) == Some(b))
      && (q.psk.Derived? && q.psk.parent == b.psk && q.rotationKey == Some(q.psk.rotationKey) ==>
            Answer(b, q) == Some(Binding(true, q.psk, Some(b.psk))))
      && (Answer(b, q).Some? ==>
            || q.psk == b.psk
            || (q.psk.Derived? && q.psk.parent == b.psk && q.rotationKey == Some(q.psk.rotationKey))
            || (b.previous == Some(q.psk) && Answer(b, q) == Some(b)))
      && (b.previous == Some(q.psk) && q.rotationKey == None ==> Answer(b, q) == Some(b))
  {
    if q.psk.Derived? && q.psk.parent == b.psk {
      DeeperThanParent(q.psk);
    }
  }

  lemma DeeperThanParent(psk: Psk)
    requires psk.Derived?
    ensures psk != psk.parent
  {
  }

  /** Clearing a rotation key never strands the client: the device has made that rotation.
      A delayed clear for any other key changes nothing. */
  lemma ClearNeverStrands(s: System, request: PairedRequest)
    requires Reachable(s) && Enabled(s, ConfirmRotation(request))
    ensures var t := Perform(s, ConfirmRotation(request));
      if ReadActive(s.file).Ok? && ReadActive(s.file).value.rotationKey == request.rotationKey
      then
        && ReadActive(t.file) == Ok(ReadActive(s.file).value.(rotationKey := None))
        && (request.clientId in s.bindings ==> s.bindings[request.clientId].psk == ReadActive(t.file).value.clientPsk)
      else t.file == s.file
  {
    ReachableIsSound(s);
    if s.file.Some? && HasTextOf(s.file.value, "rotation_key", request.rotationKey.value) {
      ClearedKeyIsConfirmed(s, request);
    }
  }

  // ---- The life of a pairing attempt ------------------------------------

  datatype Status = NotStarted | Waiting | Activated | Ended

  /** Where one attempt stands. */
  function StatusOf(s: System, clientId: string): Status {
    if clientId !in s.attempts then NotStarted
    else if s.file.Some? && HasTextOf(s.file.value, "client_id", clientId) then
      if IsPending(s.file.value) then Waiting else Activated
    else Ended
  }

  function Stage(status: Status): nat {
    match status
    case NotStarted => 0
    case Waiting => 1
    case Activated => 2
    case Ended => 3
  }

  /** The client whose attempt a step may change; None for the user's own removals. */
  function Concerns(s: System, a: Action): Option<string> {
    match a
    case StartPairing(p, _) => Some(p.clientId)
    case RollBack(clientId) => Some(clientId)
    case FinishPairing(request) => Some(request.clientId)
    case ConfirmRotation(request) => Some(request.clientId)
    case RemovePairing(request) => Some(request.clientId)
    case _ => None
  }

  /** A step moves an attempt forward along start, activation and removal, or leaves it.
      Only a step that carries the attempt's own identifier, or the user's own removal,
      moves it, and a pending pairing appears only where there was no file. */
  predicate Moves(s: System, a: Action, t: System, clientId: string) {
    var before, after := StatusOf(s, clientId), StatusOf(t, clientId);
    && (after == before
        || (before == NotStarted && after == Waiting && a.StartPairing? && s.file == None)
        || (before == Waiting && after == Activated && a.FinishPairing?)
        || (before == Waiting && after == Ended && (a.RollBack? || a.AbortByUser? || a.RemoveByUser?))
        || (before == Activated && after == Ended && (a.RemovePairing? || a.RemoveByUser?)))
    && (after != before ==> Concerns(s, a) == Some(clientId) || a.AbortByUser? || a.RemoveByUser?)
  }

  lemma StartMoves(s: System, a: Action, clientId: string)
    requires Sound(s) && Enabled(s, a) && a.StartPairing?
    ensures Moves(s, a, Perform(s, a), clientId)
  {
  }

  /** A finish of the attempt that the file holds makes it active. */
  lemma FinishActivates(s: System, request: PairedRequest)
    requires Sound(s) && Enabled(s, Action.FinishPairing(request))
    requires StatusOf(s, request.clientId) == Waiting
    ensures StatusOf(Perform(s, Action.FinishPairing(request)), request.clientId) == Activated
  {
  }

  lemma FinishMoves(s: System, a: Action, clientId: string)
    requires Sound(s) && Enabled(s, a) && a.FinishPairing?
    ensures Moves(s, a, Perform(s, a), clientId)
  {
  }

  lemma DeletionMoves(s: System, a: Action, clientId: string)
    requires Sound(s) && Enabled(s, a)
    requires a.RollBack? || a.RemovePairing? || a.AbortByUser? || a.RemoveByUser?
    ensures Moves(s, a, Perform(s, a), clientId)
  {
  }

  /** Edits of an active pairing, and steps that leave the file alone, move no attempt. */
  lemma EditMoves(s: System, a: Action, clientId: string)
    requires Sound(s) && Enabled(s, a)
    requires a.ConfirmRotation? || a.Rotate? || a.Enroll? || a.Send? || a.Deliver? || a.Revoke?
    ensures Moves(s, a, Perform(s, a), clientId)
  {
  }

  lemma StepMovesForward(s: System, a: Action, clientId: string)
    requires Sound(s) && Enabled(s, a)
    ensures Moves(s, a, Perform(s, a), clientId)
  {
    match a
    case StartPairing(_, _) => StartMoves(s, a, clientId);
    case FinishPairing(_) => FinishMoves(s, a, clientId);
    case RollBack(_) => DeletionMoves(s, a, clientId);
    case RemovePairing(_) => DeletionMoves(s, a, clientId);
    case AbortByUser => DeletionMoves(s, a, clientId);
    case RemoveByUser => DeletionMoves(s, a, clientId);
    case _ => EditMoves(s, a, clientId);
  }

  lemma {:induction false} RunMovesForward(s: System, actions: seq<Action>, t: System, clientId: string)
    requires Sound(s) && Run(s, actions, t)
    ensures Stage(StatusOf(s, clientId)) <= Stage(StatusOf(t, clientId))
    decreases |actions|
  {
    if actions != [] {
      StepIsSound(s, actions[0]);
      StepMovesForward(s, actions[0], clientId);
      RunMovesForward(Perform(s, actions[0]), actions[1..], t, clientId);
    }
  }

  /** A step that belongs to an ended attempt, however delayed, leaves the file alone. */
  lemma LateStepIsHarmless(s: System, a: Action, clientId: string)
    requires Sound(s) && Enabled(s, a) && StatusOf(s, clientId) == Ended && Concerns(s, a) == Some(clientId)
    ensures Perform(s, a).file == s.file
  {
    if a.ConfirmRotation? && s.file.Some?
       && HasTextOf(s.file.value, "rotation_key", a.request.rotationKey.value) {
      ClearedKeyIsConfirmed(s, a.request);
    }
  }

  /** An attempt is never resumed: once its file is gone, or replaced, nothing that is
      still under way for it touches the file again. */
  lemma EndedAttemptIsOver(s: System, actions: seq<Action>, t: System, clientId: string)
    requires Reachable(s) && Run(s, actions, t) && StatusOf(s, clientId) == Ended
    ensures StatusOf(t, clientId) == Ended
    ensures forall a | Enabled(t, a) && Concerns(t, a) == Some(clientId) :: Perform(t, a).file == t.file
  {
    ReachableIsSound(s);
    RunMovesForward(s, actions, t, clientId);
    RunIsSound(s, actions, t);
    forall a | Enabled(t, a) && Concerns(t, a) == Some(clientId)
      ensures Perform(t, a).file == t.file
    {
      LateStepIsHarmless(t, a, clientId);
    }
  }

  /** A step that edits an existing file keeps every member it is not about. */
  lemma EditsKeepOtherMembers(s: System, a: Action, member: string)
    requires Enabled(s, a) && s.file.Some? && Perform(s, a).file.Some?
    ensures var before, after := s.file.value, Perform(s, a).file.value;
      var edited := match a
        case FinishPairing(_) => {"pending"}
        case ConfirmRotation(_) => {"rotation_key"}
        case Rotate(_, _) => {"client_psk", "rotation_key", "rotated_at"}
        case _ => {};
      member !in edited ==>
        (member in after <==> member in before) && (member in before ==> after[member] == before[member])
  {
  }

  // ---- Rotation times ---------------------------------------------------

  /** The rotations of one pairing, counted. */
  function RotationsOf(rotations: seq<Rotation>, clientId: string): nat {
    if rotations == [] then 0
    else RotationsOf(rotations[..|rotations| - 1], clientId)
         + if rotations[|rotations| - 1].clientId == clientId then 1 else 0
  }

  /** One step rotates at most once, and then moves `rotated_at` by more than a day. */
  lemma StepRotatesAfterADay(s: System, a: Action)
    requires Sound(s) && Enabled(s, a)
    requires ReadActive(s.file).Ok? && ReadActive(Perform(s, a).file).Ok?
    requires ReadActive(Perform(s, a).file).value.clientId == ReadActive(s.file).value.clientId
    ensures var t := Perform(s, a);
      var p, q := ReadActive(s.file).value, ReadActive(t.file).value;
      var before, after := RotationsOf(s.rotations, p.clientId), RotationsOf(t.rotations, p.clientId);
      if a.Rotate? && Rotates(s, a.now)
      then after == before + 1 && q.rotatedAt == a.now > p.rotatedAt + PSK_ROTATION_INTERVAL_SECONDS
           && t.rotations == s.rotations + [Rotation(p.clientId, p.rotatedAt, a.now)]
      else after == before && q.rotatedAt == p.rotatedAt
  {
    var t := Perform(s, a);
    if a.Rotate? && Rotates(s, a.now) {
      var last := |t.rotations| - 1;
      assert t.rotations[..last] == s.rotations;
    }
  }

  /** While a pairing stays active, its file is active for the same client throughout. */
  lemma {:induction false} StaysActive(s: System, actions: seq<Action>, t: System, clientId: string)
    requires Sound(s) && Run(s, actions, t) && actions != []
    requires StatusOf(s, clientId) == Activated && StatusOf(t, clientId) == Activated
    ensures StatusOf(Perform(s, actions[0]), clientId) == Activated
  {
    StepIsSound(s, actions[0]);
    StepMovesForward(s, actions[0], clientId);
    RunMovesForward(Perform(s, actions[0]), actions[1..], t, clientId);
  }

  lemma ActivatedIsReadable(s: System, clientId: string)
    requires Sound(s) && StatusOf(s, clientId) == Activated
    ensures ReadActive(s.file).Ok? && ReadActive(s.file).value.clientId == clientId
  {
  }

  function RotatedAt(s: System): nat {
    if ReadActive(s.file).Ok? then ReadActive(s.file).value.rotatedAt else 0
  }

  /** Rotations and recorded time between two states of one pairing. */
  predicate TookItsDays(s: System, t: System, clientId: string) {
    var rotations := RotationsOf(t.rotations, clientId) - RotationsOf(s.rotations, clientId);
    0 <= rotations && RotatedAt(t) >= RotatedAt(s) + rotations * (PSK_ROTATION_INTERVAL_SECONDS + 1)
  }

  lemma StepTakesItsDays(s: System, a: Action, clientId: string)
    requires Sound(s) && Enabled(s, a)
    requires StatusOf(s, clientId) == Activated && StatusOf(Perform(s, a), clientId) == Activated
    ensures TookItsDays(s, Perform(s, a), clientId)
  {
    StepIsSound(s, a);
    ActivatedIsReadable(s, clientId);
    ActivatedIsReadable(Perform(s, a), clientId);
    StepRotatesAfterADay(s, a);
  }

  lemma DaysAdd(s: System, u: System, t: System, clientId: string)
    requires TookItsDays(s, u, clientId) && TookItsDays(u, t, clientId)
    ensures TookItsDays(s, t, clientId)
  {
  }

  lemma FirstStep(s: System, actions: seq<Action>, t: System, clientId: string) returns (u: System)
    requires Sound(s) && Run(s, actions, t) && actions != []
    requires StatusOf(s, clientId) == Activated && StatusOf(t, clientId) == Activated
    ensures Sound(u) && Run(u, actions[1..], t)
    ensures StatusOf(u, clientId) == Activated && TookItsDays(s, u, clientId)
  {
    u := Perform(s, actions[0]);
    StaysActive(s, actions, t, clientId);
    StepIsSound(s, actions[0]);
    StepTakesItsDays(s, actions[0], clientId);
  }

  /** Between two moments of one active pairing every rotation takes more than a day of
      recorded time, for any clocks read by any number of processes. */
  lemma {:induction false} RotationsTakeADayEach(s: System, actions: seq<Action>, t: System, clientId: string)
    requires Sound(s) && Run(s, actions, t)
    requires StatusOf(s, clientId) == Activated && StatusOf(t, clientId) == Activated
    ensures ReadActive(s.file).Ok? && ReadActive(t.file).Ok? && TookItsDays(s, t, clientId)
    decreases |actions|
  {
    ActivatedIsReadable(s, clientId);
    if actions != [] {
      var u := FirstStep(s, actions, t, clientId);
      RotationsTakeADayEach(u, actions[1..], t, clientId);
      DaysAdd(s, u, t, clientId);
    }
  }

  lemma RotatedNow(s: System, now: nat, rotationKey: string)
    requires Sound(s) && Enabled(s, Rotate(now, rotationKey)) && Rotates(s, now)
    ensures var t := Perform(s, Rotate(now, rotationKey));
      && Sound(t) && RotatedAt(t) == now
      && StatusOf(t, ReadActive(s.file).value.clientId) == Activated
  {
    StepIsSound(s, Rotate(now, rotationKey));
  }

  lemma NoRotationWithinADay(s: System, actions: seq<Action>, t: System, clientId: string, later: nat)
    requires Sound(s) && Run(s, actions, t)
    requires StatusOf(s, clientId) == Activated && StatusOf(t, clientId) == Activated
    requires later <= RotatedAt(s) + PSK_ROTATION_INTERVAL_SECONDS
    ensures !Rotates(t, later)
  {
    RotationsTakeADayEach(s, actions, t, clientId);
    assert RotatedAt(t) >= RotatedAt(s);
    RotatedMeans(t.file, later, "");
  }

  /** Of processes racing on one due rotation, exactly one rotates: once a step has
      rotated at `now`, no process whose clock reads at most a day more does, whatever
      happens in between. */
  lemma OnlyOneRacerRotates(s: System, now: nat, rotationKey: string, actions: seq<Action>, t: System, later: nat)
    requires Reachable(s) && Enabled(s, Rotate(now, rotationKey)) && Rotates(s, now)
    requires Run(Perform(s, Rotate(now, rotationKey)), actions, t)
    requires StatusOf(t, ReadActive(s.file).value.clientId) == Activated
    requires later <= now + PSK_ROTATION_INTERVAL_SECONDS
    ensures !Rotates(t, later)
  {
    ReachableIsSound(s);
    RotatedNow(s, now, rotationKey);
    NoRotationWithinADay(Perform(s, Rotate(now, rotationKey)), actions, t, ReadActive(s.file).value.clientId, later);
  }
}
