/** The identities answer of the SSH agent protocol (RFC 9987): printing it, parsing it, and
    merging the selected identity with those of an upstream agent. */
module SshIdentities {
  import opened Wrappers
  import opened SshWire

  const IDENTITIES_ANSWER: byte := 12
  const MAX_PACKET_LENGTH: nat := 256 * 1024

  datatype Identity = Identity(keyBlob: seq<byte>, comment: seq<byte>)

  predicate FitsOne(identity: Identity) {
    |identity.keyBlob| < U32_LIMIT && |identity.comment| < U32_LIMIT
  }

  predicate Fits(identities: seq<Identity>) {
    |identities| < U32_LIMIT && forall identity <- identities :: FitsOne(identity)
  }

  function EncodeOne(identity: Identity): seq<byte>
    requires FitsOne(identity)
  {
    Str(identity.keyBlob) + Str(identity.comment)
  }

  function EncodeAll(identities: seq<Identity>): seq<byte>
    requires forall identity <- identities :: FitsOne(identity)
  {
    if identities == [] then [] else EncodeOne(identities[0]) + EncodeAll(identities[1..])
  }

  function Encode(identities: seq<Identity>): seq<byte>
    requires Fits(identities)
  {
    [IDENTITIES_ANSWER] + (U32Bytes(|identities|) + EncodeAll(identities))
  }

  // ---- Facts about the printed form -------------------------------------

  lemma {:induction false} EncodeAllAppend(identities: seq<Identity>, last: Identity)
    requires FitsOne(last) && forall identity <- identities :: FitsOne(identity)
    ensures EncodeAll(identities + [last]) == EncodeAll(identities) + EncodeOne(last)
  {
    if identities == [] {
      assert [last][1..] == [];
    } else {
      assert (identities + [last])[1..] == identities[1..] + [last];
      EncodeAllAppend(identities[1..], last);
    }
  }

  /** Every identity takes at least eight bytes. */
  lemma {:induction false} EncodedLength(identities: seq<Identity>)
    requires forall identity <- identities :: FitsOne(identity)
    ensures |EncodeAll(identities)| >= 8 * |identities|
  {
    if identities != [] {
      EncodedLength(identities[1..]);
    }
  }

  lemma ReadsOne(identity: Identity, rest: seq<byte>)
    requires FitsOne(identity)
    ensures ReadStr(EncodeOne(identity) + rest) == Some((identity.keyBlob, Str(identity.comment) + rest))
    ensures ReadStr(Str(identity.comment) + rest) == Some((identity.comment, rest))
  {
    assert EncodeOne(identity) + rest == Str(identity.keyBlob) + (Str(identity.comment) + rest);
    ReadsWhatWasPut(identity.keyBlob, Str(identity.comment) + rest);
    ReadsWhatWasPut(identity.comment, rest);
  }

  lemma Regroup(a: seq<byte>, b: seq<byte>, c: seq<byte>)
    ensures (a + b) + c == a + (b + c)
  {
  }

  lemma SameFirst(a: Identity, restA: seq<byte>, b: Identity, restB: seq<byte>)
    requires FitsOne(a) && FitsOne(b) && EncodeOne(a) + restA == EncodeOne(b) + restB
    ensures a == b && restA == restB
  {
    ReadsOne(a, restA);
    ReadsOne(b, restB);
  }

  /** Identities read from the front of a printed list are its first identities. */
  lemma {:induction false} ReadIdentitiesAgree(found: seq<Identity>, rest: seq<byte>, all: seq<Identity>)
    requires forall identity <- found :: FitsOne(identity)
    requires forall identity <- all :: FitsOne(identity)
    requires |found| <= |all| && EncodeAll(found) + rest == EncodeAll(all)
    ensures found == all[..|found|] && rest == EncodeAll(all[|found|..])
  {
    if found == [] {
      assert all[0..] == all;
    } else {
      Regroup(EncodeOne(found[0]), EncodeAll(found[1..]), rest);
      SameFirst(found[0], EncodeAll(found[1..]) + rest, all[0], EncodeAll(all[1..]));
      ReadIdentitiesAgree(found[1..], rest, all[1..]);
      assert all[1..][|found| - 1..] == all[|found|..];
      assert found == [all[0]] + all[1..][..|found| - 1];
    }
  }

  /** The printed form determines the identities. */
  lemma EncodeIsInjective(a: seq<Identity>, b: seq<Identity>)
    requires Fits(a) && Fits(b) && Encode(a) == Encode(b)
    ensures a == b
  {
    ReadsWhatWasPutU32(|a|, EncodeAll(a));
    ReadsWhatWasPutU32(|b|, EncodeAll(b));
    assert Encode(a)[1..] == U32Bytes(|a|) + EncodeAll(a);
    assert Encode(b)[1..] == U32Bytes(|b|) + EncodeAll(b);
    assert EncodeAll(a) + [] == EncodeAll(a);
    ReadIdentitiesAgree(a, [], b);
  }

  // ---- The printer and the parser ---------------------------------------

  lemma AppendsOne(head: seq<byte>, identities: seq<Identity>, i: nat)
    requires i < |identities| && FitsOne(identities[i]) && forall identity <- identities :: FitsOne(identity)
    ensures head + EncodeAll(identities[..i]) + Str(identities[i].keyBlob) + Str(identities[i].comment)
      == head + EncodeAll(identities[..i + 1])
  {
    assert identities[..i + 1] == identities[..i] + [identities[i]];
    EncodeAllAppend(identities[..i], identities[i]);
    Regroup(head + EncodeAll(identities[..i]), Str(identities[i].keyBlob), Str(identities[i].comment));
    Regroup(head, EncodeAll(identities[..i]), EncodeOne(identities[i]));
  }

  method EncodeIdentitiesResponse(identities: seq<Identity>) returns (response: seq<byte>)
    requires Fits(identities)
    ensures response == Encode(identities)
  {
    response := PutU32([IDENTITIES_ANSWER], |identities|);
    ghost var head := response;
    for i := 0 to |identities|
      invariant response == head + EncodeAll(identities[..i])
    {
      assert identities[i] in identities;
      AppendsOne(head, identities, i);
      response := PutString(response, identities[i].keyBlob);
      response := PutString(response, identities[i].comment);
    }
    assert identities[..|identities|] == identities;
  }

  /** What the parser has read so far, and what it has left. */
  ghost predicate ReadSoFar(packet: seq<byte>, count: nat, found: seq<Identity>, remaining: seq<byte>) {
    && count < U32_LIMIT && |found| <= count
    && (forall identity <- found :: FitsOne(identity))
    && packet == [IDENTITIES_ANSWER] + (U32Bytes(count) + (EncodeAll(found) + remaining))
  }

  /** A printed list agrees with what was read of it. */
  lemma AgreesWithPrinted(packet: seq<byte>, count: nat, found: seq<Identity>, remaining: seq<byte>,
                          all: seq<Identity>)
    requires ReadSoFar(packet, count, found, remaining) && Fits(all) && Encode(all) == packet
    ensures |all| == count && found == all[..|found|] && remaining == EncodeAll(all[|found|..])
  {
    ReadsWhatWasPutU32(|all|, EncodeAll(all));
    ReadsWhatWasPutU32(count, EncodeAll(found) + remaining);
    assert packet[1..] == U32Bytes(count) + (EncodeAll(found) + remaining);
    assert packet[1..] == U32Bytes(|all|) + EncodeAll(all);
    ReadIdentitiesAgree(found, remaining, all);
  }

  /** A list that stops being readable, or goes on after its count, was never printed. */
  lemma NotPrinted(packet: seq<byte>, count: nat, found: seq<Identity>, remaining: seq<byte>)
    requires ReadSoFar(packet, count, found, remaining)
    requires
      || (|found| == count && remaining != [])
      || (|found| < count
          && (ReadStr(remaining) == None || ReadStr(ReadStr(remaining).value.1) == None))
    ensures forall all | Fits(all) :: Encode(all) != packet
  {
    forall all | Fits(all) && Encode(all) == packet
      ensures false
    {
      AgreesWithPrinted(packet, count, found, remaining, all);
      if |found| < count {
        var rest := all[|found|..];
        ReadsOne(rest[0], EncodeAll(rest[1..]));
      }
    }
  }

  /** Reads one more identity. */
  lemma ReadsOneMore(packet: seq<byte>, count: nat, found: seq<Identity>, remaining: seq<byte>)
    requires ReadSoFar(packet, count, found, remaining) && |found| < count
    requires ReadStr(remaining).Some? && ReadStr(ReadStr(remaining).value.1).Some?
    ensures var (keyBlob, middle) := ReadStr(remaining).value;
      var (comment, rest) := ReadStr(middle).value;
      ReadSoFar(packet, count, found + [Identity(keyBlob, comment)], rest)
  {
    var (keyBlob, middle) := ReadStr(remaining).value;
    var (comment, rest) := ReadStr(middle).value;
    var one := Identity(keyBlob, comment);
    ReadStrIsExact(remaining);
    ReadStrIsExact(middle);
    EncodeAllAppend(found, one);
    Regroup(Str(keyBlob), Str(comment), rest);
    Regroup(EncodeAll(found), EncodeOne(one), rest);
  }

  /** Accepts exactly the printed lists, and yields the list that was printed. The number
      of rounds is bounded by the packet, whatever count it claims. */
  method ParseIdentitiesResponse(packet: seq<byte>)
    returns (r: Result<seq<Identity>, InvalidData>, ghost rounds: nat)
    ensures r.Ok? ==> Fits(r.value) && Encode(r.value) == packet
    ensures r.Err? ==> forall all | Fits(all) :: Encode(all) != packet
    ensures 8 * rounds <= |packet| + 8
  {
    rounds := 0;
    var response := new Cursor(packet);
    var tag := response.Byte();
    if tag.Err? || tag.value != IDENTITIES_ANSWER {
      return Err(InvalidData), 0;
    }
    assert packet == [IDENTITIES_ANSWER] + response.remaining;
    ghost var counted := response.remaining;
    var count := response.U32();
    if count.Err? {
      forall all | Fits(all)
        ensures Encode(all) != packet
      {
        ReadsWhatWasPutU32(|all|, EncodeAll(all));
        assert Encode(all)[1..] == U32Bytes(|all|) + EncodeAll(all);
      }
      return Err(InvalidData), 0;
    }
    ReadU32IsExact(counted);
    var identities: seq<Identity> := [];
    for i := 0 to count.value
      invariant |identities| == i && rounds == i
      invariant ReadSoFar(packet, count.value, identities, response.remaining)
    {
      EncodedLength(identities);
      ghost var remaining := response.remaining;
      rounds := rounds + 1;
      var keyBlob := response.String();
      if keyBlob.Err? {
        NotPrinted(packet, count.value, identities, remaining);
        return Err(InvalidData), rounds;
      }
      var comment := response.String();
      if comment.Err? {
        NotPrinted(packet, count.value, identities, remaining);
        return Err(InvalidData), rounds;
      }
      ReadsOneMore(packet, count.value, identities, remaining);
      identities := identities + [Identity(keyBlob.value, comment.value)];
    }
    EncodedLength(identities);
    var end := response.End();
    if end.Err? {
      NotPrinted(packet, count.value, identities, response.remaining);
      return Err(InvalidData), rounds;
    }
    return Ok(identities), rounds;
  }

  // ---- The merge --------------------------------------------------------

  datatype KeyKind = Ed25519Key | RsaKey

  datatype SelectedIdentity = SelectedIdentity(keyBlob: seq<byte>, keyKind: Option<KeyKind>, comment: seq<byte>)

  /** The selected identity is listed if Agentknock can authenticate with its key. */
  function Listed(selected: SelectedIdentity): seq<Identity> {
    if selected.keyKind.Some? then [Identity(selected.keyBlob, selected.comment)] else []
  }

  /** An upstream identity is kept if it is the first with its key and isn't the selected one. */
  predicate IsKept(selectedKey: seq<byte>, upstream: seq<Identity>, i: nat)
    requires i < |upstream|
  {
    && upstream[i].keyBlob != selectedKey
    && forall j | 0 <= j < i :: upstream[j].keyBlob != upstream[i].keyBlob
  }

  function Kept(selectedKey: seq<byte>, upstream: seq<Identity>): seq<Identity> {
    if upstream == [] then []
    else
      var n := |upstream| - 1;
      Kept(selectedKey, upstream[..n]) + if IsKept(selectedKey, upstream, n) then [upstream[n]] else []
  }

  function Merged(selected: SelectedIdentity, upstream: seq<Identity>): seq<Identity> {
    Listed(selected) + Kept(selected.keyBlob, upstream)
  }

  lemma IsKeptOfPrefix(selectedKey: seq<byte>, upstream: seq<Identity>, n: nat, i: nat)
    requires i < n <= |upstream|
    ensures IsKept(selectedKey, upstream[..n], i) <==> IsKept(selectedKey, upstream, i)
  {
    assert upstream[..n][i] == upstream[i];
    if IsKept(selectedKey, upstream[..n], i) {
      forall j | 0 <= j < i
        ensures upstream[j].keyBlob != upstream[i].keyBlob
      {
        assert upstream[..n][j] == upstream[j];
      }
    }
  }

  /** Increasing positions that are exactly the kept ones, and what is kept there. */
  ghost predicate KeptAt(selectedKey: seq<byte>, upstream: seq<Identity>, n: nat, positions: seq<nat>,
                         kept: seq<Identity>)
    requires n <= |upstream|
  {
    && |positions| == |kept|
    && (forall k | 0 <= k < |positions| :: positions[k] < n && kept[k] == upstream[positions[k]])
    && (forall k | 0 <= k < |positions| :: IsKept(selectedKey, upstream, positions[k]))
    && (forall k, l | 0 <= k < l < |positions| :: positions[k] < positions[l])
    && (forall i: nat | i < n && IsKept(selectedKey, upstream, i) :: i in positions)
  }

  lemma KeptAtOneMore(selectedKey: seq<byte>, upstream: seq<Identity>, n: nat, positions: seq<nat>,
                      kept: seq<Identity>)
    requires n < |upstream| && IsKept(selectedKey, upstream, n)
    requires KeptAt(selectedKey, upstream, n, positions, kept)
    ensures KeptAt(selectedKey, upstream, n + 1, positions + [n], kept + [upstream[n]])
  {
    var longer := positions + [n];
    forall i: nat | i < n + 1 && IsKept(selectedKey, upstream, i)
      ensures i in longer
    {
      if i == n {
        assert longer[|positions|] == i;
      }
    }
  }

  /** The kept identities are those at the kept positions, in their upstream order. */
  lemma {:induction false} KeptInOrder(selectedKey: seq<byte>, upstream: seq<Identity>, n: nat)
    returns (positions: seq<nat>)
    requires n <= |upstream|
    ensures KeptAt(selectedKey, upstream, n, positions, Kept(selectedKey, upstream[..n]))
  {
    if n == 0 {
      positions := [];
    } else {
      positions := KeptInOrder(selectedKey, upstream, n - 1);
      var kept := Kept(selectedKey, upstream[..n - 1]);
      IsKeptOfPrefix(selectedKey, upstream, n, n - 1);
      assert upstream[..n][..n - 1] == upstream[..n - 1];
      if IsKept(selectedKey, upstream, n - 1) {
        KeptAtOneMore(selectedKey, upstream, n - 1, positions, kept);
        positions := positions + [n - 1];
        assert Kept(selectedKey, upstream[..n]) == kept + [upstream[n - 1]];
      } else {
        assert Kept(selectedKey, upstream[..n]) == kept;
      }
    }
  }

  /** The merged list begins with the selected identity if it can be used, and otherwise nothing
      in it has that key. The rest is from the upstream list. */
  lemma MergedBegins(selected: SelectedIdentity, upstream: seq<Identity>)
    ensures var merged := Merged(selected, upstream);
      && (selected.keyKind.Some? ==>
            merged != [] && merged[0] == Identity(selected.keyBlob, selected.comment)
            && forall identity <- merged[1..] :: identity in upstream && identity.keyBlob != selected.keyBlob)
      && (selected.keyKind == None ==>
            forall identity <- merged :: identity in upstream && identity.keyBlob != selected.keyBlob)
  {
    var kept := Kept(selected.keyBlob, upstream);
    KeptFits(selected.keyBlob, upstream);
    if selected.keyKind.Some? {
      assert Merged(selected, upstream)[1..] == kept;
    } else {
      assert Merged(selected, upstream) == kept;
    }
  }

  lemma KeptIsDistinct(selectedKey: seq<byte>, upstream: seq<Identity>)
    ensures var kept := Kept(selectedKey, upstream);
      && (forall k, l | 0 <= k < l < |kept| :: kept[k].keyBlob != kept[l].keyBlob)
      && (forall i: nat | i < |upstream| && IsKept(selectedKey, upstream, i) :: upstream[i] in kept)
  {
    var kept := Kept(selectedKey, upstream);
    var positions := KeptInOrder(selectedKey, upstream, |upstream|);
    assert upstream[..|upstream|] == upstream;
    forall k, l | 0 <= k < l < |kept|
      ensures kept[k].keyBlob != kept[l].keyBlob
    {
      assert IsKept(selectedKey, upstream, positions[l]);
      assert positions[k] < positions[l];
    }
    forall i: nat | i < |upstream| && IsKept(selectedKey, upstream, i)
      ensures upstream[i] in kept
    {
      var k :| 0 <= k < |positions| && positions[k] == i;
      assert kept[k] == upstream[i];
    }
  }

  /** The merged list has pairwise distinct keys, and lists every upstream key as its first
      upstream entry does. */
  lemma MergedIsDistinctAndComplete(selected: SelectedIdentity, upstream: seq<Identity>)
    ensures var merged := Merged(selected, upstream);
      && (forall k, l | 0 <= k < l < |merged| :: merged[k].keyBlob != merged[l].keyBlob)
      && (forall i: nat | i < |upstream| && IsKept(selected.keyBlob, upstream, i) :: upstream[i] in merged)
  {
    KeptIsDistinct(selected.keyBlob, upstream);
    KeptFits(selected.keyBlob, upstream);
    var kept, merged := Kept(selected.keyBlob, upstream), Merged(selected, upstream);
    var n := |Listed(selected)|;
    forall k, l | 0 <= k < l < |merged|
      ensures merged[k].keyBlob != merged[l].keyBlob
    {
      assert merged[l] == kept[l - n];
      if k >= n {
        assert merged[k] == kept[k - n];
      }
    }
  }

  lemma {:induction false} KeptFits(selectedKey: seq<byte>, upstream: seq<Identity>)
    ensures |Kept(selectedKey, upstream)| <= |upstream|
    ensures forall identity <- Kept(selectedKey, upstream) :: identity in upstream && identity.keyBlob != selectedKey
  {
    if upstream != [] {
      KeptFits(selectedKey, upstream[..|upstream| - 1]);
    }
  }

  /** A packet of the permitted length lists too few identities to overflow the count. */
  lemma MergedFits(selected: SelectedIdentity, upstream: seq<Identity>)
    requires |selected.keyBlob| < U32_LIMIT && |selected.comment| < U32_LIMIT
    requires Fits(upstream) && |Encode(upstream)| <= MAX_PACKET_LENGTH
    ensures Fits(Merged(selected, upstream))
  {
    EncodedLength(upstream);
    KeptFits(selected.keyBlob, upstream);
  }

  /** Appends the identities whose keys haven't been seen. */
  method Filter(selected: SelectedIdentity, upstream: seq<Identity>) returns (identities: seq<Identity>)
    ensures identities == Merged(selected, upstream)
  {
    identities := Listed(selected);
    var seen := {selected.keyBlob};
    for i := 0 to |upstream|
      invariant identities == Merged(selected, upstream[..i])
      invariant forall key :: key in seen <==>
        key == selected.keyBlob || exists j | 0 <= j < i :: upstream[j].keyBlob == key
    {
      assert upstream[..i + 1][..i] == upstream[..i];
      IsKeptOfPrefix(selected.keyBlob, upstream, i + 1, i);
      if upstream[i].keyBlob !in seen {
        identities := identities + [upstream[i]];
      }
      seen := seen + {upstream[i].keyBlob};
    }
    assert upstream[..|upstream|] == upstream;
  }

  /** The sizes the selected identity has to keep to be printed. */
  predicate IsPrintable(selected: SelectedIdentity) {
    |selected.keyBlob| < U32_LIMIT && |selected.comment| < U32_LIMIT
  }

  ghost predicate IsPrinted(packet: seq<byte>) {
    exists all :: Fits(all) && Encode(all) == packet
  }

  /** The packets that answer a request for identities, given what the upstream agent sent:
      a printed list is merged, anything else contributes nothing. */
  ghost predicate Answers(selected: SelectedIdentity, upstream: Option<seq<byte>>, response: seq<byte>)
    requires IsPrintable(selected)
  {
    if upstream.Some? && IsPrinted(upstream.value)
    then exists all :: Fits(all) && Encode(all) == upstream.value
           && Fits(Merged(selected, all)) && response == Encode(Merged(selected, all))
    else response == Encode(Listed(selected))
  }

  method IdentitiesResponse(selected: SelectedIdentity, upstream: Option<seq<byte>>) returns (response: seq<byte>)
    requires IsPrintable(selected)
    requires upstream.Some? ==> |upstream.value| <= MAX_PACKET_LENGTH
    ensures Answers(selected, upstream, response)
  {
    var listed: seq<Identity> := [];
    if upstream.Some? {
      var r, _ := ParseIdentitiesResponse(upstream.value);
      if r.Ok? {
        listed := r.value;
        MergedFits(selected, listed);
        assert IsPrinted(upstream.value);
      }
    }
    assert Merged(selected, []) == Listed(selected);
    var identities := Filter(selected, listed);
    response := EncodeIdentitiesResponse(identities);
  }

  /** Read back, an answer lists the selected identity first if it can be used, then what
      was kept of the upstream list, in order and without repeating a key. */
  lemma AnswerReadsBack(selected: SelectedIdentity, upstream: Option<seq<byte>>, response: seq<byte>,
                        parsed: seq<Identity>, sent: seq<Identity>)
    requires IsPrintable(selected) && Answers(selected, upstream, response)
    requires Fits(parsed) && Encode(parsed) == response
    requires if upstream.Some? && IsPrinted(upstream.value) then Fits(sent) && Encode(sent) == upstream.value
             else sent == []
    ensures parsed ==
      (if selected.keyKind.Some? then [Identity(selected.keyBlob, selected.comment)] else [])
      + Kept(selected.keyBlob, sent)
    ensures selected.keyKind == None ==> forall identity <- parsed :: identity.keyBlob != selected.keyBlob
    ensures forall k, l | 0 <= k < l < |parsed| :: parsed[k].keyBlob != parsed[l].keyBlob
  {
    if upstream.Some? && IsPrinted(upstream.value) {
      var all :| Fits(all) && Encode(all) == upstream.value
        && Fits(Merged(selected, all)) && response == Encode(Merged(selected, all));
      EncodeIsInjective(all, sent);
    }
    assert Merged(selected, []) == Listed(selected);
    EncodeIsInjective(parsed, Merged(selected, sent));
    MergedBegins(selected, sent);
    MergedIsDistinctAndComplete(selected, sent);
  }

  /** One answer, byte for byte. */
  lemma PrintedAnswer()
    ensures Encode([Identity([7, 8], [9])]) == [12, 0, 0, 0, 1, 0, 0, 0, 2, 7, 8, 0, 0, 0, 1, 9]
  {
    var one := Identity([7, 8], [9]);
    assert EncodeOne(one) == [0, 0, 0, 2, 7, 8, 0, 0, 0, 1, 9];
    assert EncodeAll([one]) == EncodeOne(one) + EncodeAll([one][1..]) == EncodeOne(one);
  }
}
