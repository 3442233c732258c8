/** The SSH data representation of section 5 of RFC 4251: byte, uint32 and string. */
module SshWire {
  import opened Wrappers

  const U32_LIMIT: nat := 0x1_0000_0000

  datatype InvalidData = InvalidData

  /** The bytes of an ASCII text. */
  function Bytes(text: string): seq<byte> {
    seq(|text|, i requires 0 <= i < |text| => text[i] as int % 0x100)
  }

  // ---- Printing ---------------------------------------------------------

  function U32Bytes(value: nat): (bytes: seq<byte>)
    requires value < U32_LIMIT
  {
    [value / 0x100 / 0x100 / 0x100, value / 0x100 / 0x100 % 0x100, value / 0x100 % 0x100, value % 0x100]
  }

  /** A string: its length and its bytes. */
  function Str(value: seq<byte>): seq<byte>
    requires |value| < U32_LIMIT
  {
    U32Bytes(|value|) + value
  }

  method PutU32(output: seq<byte>, value: nat) returns (longer: seq<byte>)
    requires value < U32_LIMIT
    ensures longer == output + U32Bytes(value)
  {
    longer := output + [value / 0x100 / 0x100 / 0x100];
    longer := longer + [value / 0x100 / 0x100 % 0x100];
    longer := longer + [value / 0x100 % 0x100];
    longer := longer + [value % 0x100];
  }

  method PutString(output: seq<byte>, value: seq<byte>) returns (longer: seq<byte>)
    requires |value| < U32_LIMIT
    ensures longer == output + Str(value)
  {
    longer := PutU32(output, |value|);
    longer := longer + value;
  }

  // ---- Reading ----------------------------------------------------------

  function U32Value(bytes: seq<byte>): nat
    requires |bytes| == 4
  {
    ((bytes[0] as int * 0x100 + bytes[1] as int) * 0x100 + bytes[2] as int) * 0x100 + bytes[3] as int
  }

  /** What a read yields and what remains after it. */
  type Read<T> = Option<(T, seq<byte>)>

  function ReadByte(input: seq<byte>): Read<byte> {
    if input == [] then None else Some((input[0], input[1..]))
  }

  function ReadU32(input: seq<byte>): Read<nat> {
    if |input| < 4 then None else Some((U32Value(input[..4]), input[4..]))
  }

  function ReadStr(input: seq<byte>): Read<seq<byte>> {
    match ReadU32(input)
    case None => None
    case Some((length, rest)) => if |rest| < length then None else Some((rest[..length], rest[length..]))
  }

  class Cursor {
    var remaining: seq<byte>

    constructor (input: seq<byte>)
      ensures remaining == input
    {
      remaining := input;
    }

    method Byte() returns (r: Result<byte, InvalidData>)
      modifies this
      ensures match ReadByte(old(remaining))
              case Some((value, rest)) => r == Ok(value) && remaining == rest
              case None => r.Err?
    {
      if remaining == [] {
        return Err(InvalidData);
      }
      r := Ok(remaining[0]);
      remaining := remaining[1..];
    }

    method U32() returns (r: Result<nat, InvalidData>)
      modifies this
      ensures match ReadU32(old(remaining))
              case Some((value, rest)) => r == Ok(value) && remaining == rest
              case None => r.Err?
    {
      if |remaining| < 4 {
        return Err(InvalidData);
      }
      r := Ok(U32Value(remaining[..4]));
      remaining := remaining[4..];
    }

    method String() returns (r: Result<seq<byte>, InvalidData>)
      modifies this
      ensures match ReadStr(old(remaining))
              case Some((value, rest)) => r == Ok(value) && remaining == rest
              case None => r.Err?
    {
      var length :- U32();
      if |remaining| < length {
        return Err(InvalidData);
      }
      r := Ok(remaining[..length]);
      remaining := remaining[length..];
    }

    method End() returns (r: Result<(), InvalidData>)
      ensures r.Ok? <==> remaining == []
    {
      if remaining == [] {
        return Ok(());
      }
      return Err(InvalidData);
    }
  }

  // ---- Reading inverts printing -----------------------------------------

  lemma U32RoundTrip(value: nat)
    requires value < U32_LIMIT
    ensures U32Value(U32Bytes(value)) == value
  {
  }

  lemma SplitsOff(high: nat, low: byte)
    ensures (high * 0x100 + low as int) / 0x100 == high
    ensures (high * 0x100 + low as int) % 0x100 == low as int
  {
  }

  lemma U32Canonical(bytes: seq<byte>)
    requires |bytes| == 4
    ensures U32Value(bytes) < U32_LIMIT && U32Bytes(U32Value(bytes)) == bytes
  {
    var two := bytes[0] as int * 0x100 + bytes[1] as int;
    var three := two * 0x100 + bytes[2] as int;
    SplitsOff(bytes[0], bytes[1]);
    SplitsOff(two, bytes[2]);
    SplitsOff(three, bytes[3]);
  }

  lemma ReadsWhatWasPutU32(value: nat, rest: seq<byte>)
    requires value < U32_LIMIT
    ensures ReadU32(U32Bytes(value) + rest) == Some((value, rest))
  {
    U32RoundTrip(value);
    assert (U32Bytes(value) + rest)[..4] == U32Bytes(value);
    assert (U32Bytes(value) + rest)[4..] == rest;
  }

  lemma ReadU32IsExact(input: seq<byte>)
    requires ReadU32(input).Some?
    ensures var (value, rest) := ReadU32(input).value;
      value < U32_LIMIT && input == U32Bytes(value) + rest
  {
    U32Canonical(input[..4]);
    assert input == input[..4] + input[4..];
  }

  lemma ReadsWhatWasPut(value: seq<byte>, rest: seq<byte>)
    requires |value| < U32_LIMIT
    ensures ReadStr(Str(value) + rest) == Some((value, rest))
  {
    ReadsWhatWasPutU32(|value|, value + rest);
    assert Str(value) + rest == U32Bytes(|value|) + (value + rest);
    assert (value + rest)[..|value|] == value && (value + rest)[|value|..] == rest;
  }

  lemma ReadStrIsExact(input: seq<byte>)
    requires ReadStr(input).Some?
    ensures var (value, rest) := ReadStr(input).value;
      |value| < U32_LIMIT && input == Str(value) + rest
  {
    ReadU32IsExact(input);
    var (length, rest) := ReadU32(input).value;
    assert rest == rest[..length] + rest[length..];
    assert input == (U32Bytes(length) + rest[..length]) + rest[length..];
  }
}
