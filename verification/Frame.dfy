/**
 The AirDAP frame codec of `firmware/components/airdap_frame/airdap_frame.c`: a 20-byte header and a
 payload, encoded, and decoded from the front of a byte stream.
 */
module Frame {
  import opened Bytes

  const MAGIC := 0x4144_4150
  const HEADER_SIZE := 20
  const VERSION := 1
  const MAX_PAYLOAD := 4096
  const DAP_REQUEST_MAX := 508

  const HELLO := 1
  const AUTH := 2
  const DAP_REQUEST := 3
  const CONTROL_REQUEST := 5
  const KEEPALIVE := 7
  const ERROR := 8

  datatype Error =
    | NoError | Truncated | PayloadTooLarge | UnsupportedVersion | UnsupportedType | InvalidMagic | InvalidFlags
    | InvalidReserved | SessionMismatch | SequenceDuplicate | SequenceStale | SequenceOutOfOrder | ResponseMismatch

  // ---------------------------------------------------------------- header

  type U16Value = x: int | 0 <= x < 0x1_0000

  datatype Header = Header(magic: Word, version: Byte, kind: Byte, flags: U16Value, session: Word, sequence: Word,
                           payloadLength: U16Value, reserved: U16Value)

  function ValidateHeader(h: Header): Error {
    if h.magic != MAGIC then InvalidMagic
    else if h.version != VERSION then UnsupportedVersion
    else if !(HELLO <= h.kind <= ERROR) then UnsupportedType
    else if h.flags != 0 then InvalidFlags
    else if h.reserved != 0 then InvalidReserved
    else if h.session == 0 then SessionMismatch
    else if h.sequence == 0 then SequenceOutOfOrder
    else if h.payloadLength > MAX_PAYLOAD then PayloadTooLarge
    else if h.kind == DAP_REQUEST && h.payloadLength > DAP_REQUEST_MAX then PayloadTooLarge
    else NoError
  }

  function HeaderBytes(h: Header): (s: seq<Byte>)
    ensures |s| == HEADER_SIZE
  {
    PutU32(h.magic) + [h.version, h.kind] + PutU16(h.flags) + PutU32(h.session) + PutU32(h.sequence)
    + PutU16(h.payloadLength) + PutU16(h.reserved)
  }

  function HeaderAt(s: seq<Byte>): Header
    requires |s| >= HEADER_SIZE
  {
    Header(GetU32(s[..4]), s[4], s[5], GetU16(s[6..8]), GetU32(s[8..12]), GetU32(s[12..16]), GetU16(s[16..18]),
           GetU16(s[18..20]))
  }

  // ---------------------------------------------------------------- the codec

  datatype Decoded = Ok(header: Header, payload: seq<Byte>, size: nat) | NeedMore | Invalid(error: Error)

  function Decode(s: seq<Byte>): Decoded {
    if |s| < HEADER_SIZE then NeedMore
    else
      var h := HeaderAt(s);
      var error := ValidateHeader(h);
      if error != NoError then Invalid(error)
      else if |s| < HEADER_SIZE + h.payloadLength then NeedMore
      else Ok(h, s[HEADER_SIZE..HEADER_SIZE + h.payloadLength], HEADER_SIZE + h.payloadLength)
  }

  function Encode(h: Header, payload: seq<Byte>): seq<Byte> { HeaderBytes(h) + payload }

  predicate Sendable(h: Header, payload: seq<Byte>) {
    ValidateHeader(h) == NoError && |payload| == h.payloadLength
  }

  lemma HeaderFields(h: Header)
    ensures var s := HeaderBytes(h);
            && s[..4] == PutU32(h.magic) && s[4] == h.version && s[5] == h.kind && s[6..8] == PutU16(h.flags)
            && s[8..12] == PutU32(h.session) && s[12..16] == PutU32(h.sequence)
            && s[16..18] == PutU16(h.payloadLength) && s[18..20] == PutU16(h.reserved)
  {
    hide PutU32;
    hide PutU16;
    var a := PutU32(h.magic);
    var b := a + [h.version, h.kind];
    var c := b + PutU16(h.flags);
    var d := c + PutU32(h.session);
    var e := d + PutU32(h.sequence);
    var f := e + PutU16(h.payloadLength);
    var s := f + PutU16(h.reserved);
    assert s[..18] == f && f[..16] == e && e[..12] == d && d[..8] == c && c[..6] == b && b[..4] == a;
  }

  lemma HeaderRoundTrip(h: Header, rest: seq<Byte>)
    ensures HeaderAt(HeaderBytes(h) + rest) == h
  {
    var s, t := HeaderBytes(h), HeaderBytes(h) + rest;
    HeaderFields(h);
    hide HeaderBytes;
    assert t[..4] == s[..4] && t[6..8] == s[6..8] && t[8..12] == s[8..12] && t[12..16] == s[12..16];
    assert t[16..18] == s[16..18] && t[18..20] == s[18..20];
    U32RoundTrip(h.magic);
    U32RoundTrip(h.session);
    U32RoundTrip(h.sequence);
    U16RoundTrip(h.flags);
    U16RoundTrip(h.payloadLength);
    U16RoundTrip(h.reserved);
    hide PutU32;
    hide GetU32;
    hide PutU16;
    hide GetU16;
  }

  /** Decoding inverts encoding, whatever bytes follow. */
  lemma DecodeEncode(h: Header, payload: seq<Byte>, rest: seq<Byte>)
    requires Sendable(h, payload)
    ensures Decode(Encode(h, payload) + rest) == Ok(h, payload, HEADER_SIZE + |payload|)
  {
    hide HeaderBytes;
    hide HeaderAt;
    HeaderRoundTrip(h, payload + rest);
    var s := Encode(h, payload) + rest;
    assert s == HeaderBytes(h) + (payload + rest);
    assert s[HEADER_SIZE..HEADER_SIZE + |payload|] == payload;
  }

  /** Every strict prefix of a frame asks for more. */
  lemma PrefixNeedsMore(h: Header, payload: seq<Byte>, k: nat)
    requires Sendable(h, payload) && k < HEADER_SIZE + |payload|
    ensures Decode(Encode(h, payload)[..k]) == NeedMore
  {
    hide HeaderBytes;
    hide HeaderAt;
    if k >= HEADER_SIZE {
      HeaderRoundTrip(h, payload[..k - HEADER_SIZE]);
      assert Encode(h, payload)[..k] == HeaderBytes(h) + payload[..k - HEADER_SIZE];
    }
  }

  /** And what decodes is an encoding: a frame has one spelling. */
  lemma EncodeDecode(s: seq<Byte>)
    requires Decode(s).Ok?
    ensures var d := Decode(s);
            Sendable(d.header, d.payload) && d.size <= |s| && s[..d.size] == Encode(d.header, d.payload)
  {
    var d := Decode(s);
    var h := d.header;
    HeaderFields(h);
    U32Inverse(s[..4]);
    U16Inverse(s[6..8]);
    U32Inverse(s[8..12]);
    U32Inverse(s[12..16]);
    U16Inverse(s[16..18]);
    U16Inverse(s[18..20]);
    hide HeaderBytes;
    hide PutU32;
    hide GetU32;
    hide PutU16;
    hide GetU16;
    var b := HeaderBytes(h);
    assert b == b[..4] + [b[4], b[5]] + b[6..8] + b[8..12] + b[12..16] + b[16..18] + b[18..20];
    assert s[..20] == s[..4] + [s[4], s[5]] + s[6..8] + s[8..12] + s[12..16] + s[16..18] + s[18..20];
    assert s[..d.size] == s[..20] + s[20..d.size];
  }

  // The encoder on the caller's buffer.
  method EncodeInto(h: Header, payload: seq<Byte>, output: array<Byte>, capacity: nat)
    returns (error: Error, encoded: nat)
    requires capacity <= output.Length && |payload| == h.payloadLength
    modifies output
    ensures ValidateHeader(h) != NoError ==> error == ValidateHeader(h) && encoded == 0 && output[..] == old(output[..])
    ensures ValidateHeader(h) == NoError ==>
              && encoded == HEADER_SIZE + |payload|
              && error == (if capacity < encoded then Truncated else NoError)
              && (error == NoError ==> output[..encoded] == Encode(h, payload))
  {
    hide ValidateHeader;
    error := ValidateHeader(h);
    encoded := 0;
    if error != NoError {
      return;
    }
    encoded := HEADER_SIZE + |payload|;
    if capacity < encoded {
      return Truncated, encoded;
    }
    var head := HeaderBytes(h);
    forall i | 0 <= i < HEADER_SIZE {
      output[i] := head[i];
    }
    forall i | 0 <= i < |payload| {
      output[HEADER_SIZE + i] := payload[i];
    }
    hide HeaderBytes;
    assert output[..encoded] == head + payload;
  }
}
