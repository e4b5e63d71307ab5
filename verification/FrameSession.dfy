/**
 Sequence numbers over a whole connection: the firmware's request validator
 (`firmware/components/airdap_frame/airdap_frame.c`) against the host's counter and poisoning rule
 (`host/src/network.rs`), and the two codecs against each other.
 */
module FrameSession {
  import opened Bytes
  import opened Frame

  // Sequence numbers run through 1 .. 2^32 - 1.
  const SPACE := 0xFFFF_FFFF
  const HALF := 0x7FFF_FFFF

  // ---------------------------------------------------------------- the validator

  datatype Validator = Validator(session: Word, expected: Word, last: Word, hasLast: bool)

  datatype Checked = Checked(validator: Validator, error: Error)

  function NextSequence(n: Word): Word { if n + 1 == U32 then 1 else n + 1 }

  predicate IsRequest(kind: Byte) { kind in [HELLO, AUTH, DAP_REQUEST, CONTROL_REQUEST, KEEPALIVE] }

  function CheckSequence(v: Validator, sequence: Word): Checked
    requires sequence > 0
  {
    if sequence == v.expected then Checked(Validator(v.session, NextSequence(sequence), sequence, true), NoError)
    else if v.hasLast && sequence == v.last then Checked(v, SequenceDuplicate)
    else if !v.hasLast then Checked(v, SequenceOutOfOrder)
    else
      var forward := (sequence - 1 + SPACE - (v.expected - 1)) % SPACE;
      Checked(v, if forward <= SPACE / 2 then SequenceOutOfOrder else SequenceStale)
  }

  function CheckRequest(v: Validator, h: Header): Checked {
    if ValidateHeader(h) != NoError then Checked(v, ValidateHeader(h))
    else if !IsRequest(h.kind) then Checked(v, UnsupportedType)
    else if v.session == 0 || h.session != v.session then Checked(v, SessionMismatch)
    else CheckSequence(v, h.sequence)
  }

  // `airdap_frame_sequence_validator_init` for a nonzero session.
  function NewValidator(session: Word): Validator { Validator(session, 1, 0, false) }

  class SequenceValidator {
    var session: Word
    var expected: Word
    var last: Word
    var hasLast: bool

    constructor (id: Word)
      ensures View() == NewValidator(id)
    {
      session, expected, last, hasLast := id, 1, 0, false;
    }

    function View(): Validator
      reads this
    {
      Validator(session, expected, last, hasLast)
    }

    method ValidateRequest(request: Header) returns (error: Error)
      modifies this
      ensures Checked(View(), error) == CheckRequest(old(View()), request)
    {
      error := ValidateHeader(request);
      if error != NoError {
        return;
      }
      if !IsRequest(request.kind) {
        return UnsupportedType;
      }
      if session == 0 || request.session != session {
        return SessionMismatch;
      }
      if request.sequence == expected {
        last, hasLast := request.sequence, true;
        expected := NextSequence(request.sequence);
        return NoError;
      }
      if hasLast && request.sequence == last {
        return SequenceDuplicate;
      }
      if !hasLast {
        return SequenceOutOfOrder;
      }
      var requestIndex, expectedIndex := request.sequence - 1, expected - 1;
      var forward := (requestIndex + SPACE - expectedIndex) % SPACE;
      return if forward <= SPACE / 2 then SequenceOutOfOrder else SequenceStale;
    }
  }

  // ---------------------------------------------------------------- how far off

  // The sequence number `k` before, or `j` after, `expected`, going round without 0.
  function Behind(expected: Word, k: nat): int { if expected - k >= 1 then expected - k else expected - k + SPACE }

  function Ahead(expected: Word, j: nat): int { if expected + j <= SPACE then expected + j else expected + j - SPACE }

  predicate Started(v: Validator) {
    0 < v.last && v.hasLast && 0 < v.expected && v.expected == NextSequence(v.last)
  }

  lemma ForwardOf(sequence: Word, expected: Word)
    requires sequence > 0 && expected > 0
    ensures (sequence - 1 + SPACE - (expected - 1)) % SPACE ==
            if sequence >= expected then sequence - expected else sequence - expected + SPACE
  {
  }

  // The k-th number of the counter.
  function Nth(k: nat): Word { if k == 0 then 0 else (k - 1) % SPACE + 1 }

  lemma NthNext(k: nat)
    ensures Nth(k + 1) == NextSequence(Nth(k)) && (k > 0 ==> 0 < Nth(k))
  {
    if k > 0 {
      var q, r := (k - 1) / SPACE, (k - 1) % SPACE;
      assert k - 1 == SPACE * q + r;
      if r + 1 < SPACE {
        assert k == SPACE * q + (r + 1);
      } else {
        assert k == SPACE * (q + 1);
      }
    }
  }

  // A validator after any requests whatever, and how many of them it accepted.
  function Serve(v: Validator, requests: seq<Header>): Validator
    decreases requests
  {
    if requests == [] then v else Serve(CheckRequest(v, requests[0]).validator, requests[1..])
  }

  function Taken(v: Validator, requests: seq<Header>): nat
    decreases requests
  {
    if requests == [] then 0
    else
      var c := CheckRequest(v, requests[0]);
      (if c.error == NoError then 1 else 0) + Taken(c.validator, requests[1..])
  }

  // With `k` requests accepted the next is number `k + 1`, and the last, if any, was number `k`.
  predicate Expects(v: Validator, k: nat) {
    v.expected == Nth(k + 1) && (if k == 0 then !v.hasLast else v.hasLast && v.last == Nth(k))
  }

  lemma CheckExpects(v: Validator, h: Header, k: nat)
    requires Expects(v, k)
    ensures var c := CheckRequest(v, h);
            && Expects(c.validator, if c.error == NoError then k + 1 else k)
            && (c.error != NoError ==> c.validator == v)
  {
    NthNext(k + 1);
    hide Nth;
    hide ValidateHeader;
  }

  lemma {:induction false} ServeExpects(v: Validator, requests: seq<Header>, k: nat)
    requires Expects(v, k)
    ensures Expects(Serve(v, requests), k + Taken(v, requests))
    decreases requests
  {
    if requests != [] {
      CheckExpects(v, requests[0], k);
      hide CheckRequest;
      hide Expects;
      var c := CheckRequest(v, requests[0]);
      ServeExpects(c.validator, requests[1..], if c.error == NoError then k + 1 else k);
    }
  }

  /**
   Whatever a peer sends on a session, the validator expects the numbers 1, 2, .. 2^32 - 1, 1, .. in turn,
   one more for each request it accepts, and never 0; a request it refuses leaves it as it is.
   */
  lemma ValidatorCounts(session: Word, requests: seq<Header>, next: Header)
    requires session > 0
    ensures var v, k := Serve(NewValidator(session), requests), Taken(NewValidator(session), requests);
            && v.expected == Nth(k + 1) > 0 && (v.hasLast <==> k > 0) && (k > 0 ==> Started(v) && v.last == Nth(k))
            && (CheckRequest(v, next).error != NoError ==> CheckRequest(v, next).validator == v)
  {
    var start := NewValidator(session);
    var k := Taken(start, requests);
    assert Expects(start, 0);
    ServeExpects(start, requests, 0);
    NthNext(k);
    NthNext(k + 1);
    CheckExpects(Serve(start, requests), next, k);
    hide Nth;
    hide CheckRequest;
  }

  /**
   After any requests: a number up to 2^31 - 1 ahead of the expected one is out of order; one behind is a
   duplicate and up to 2^31 - 1 behind is stale, except that before the first accepted request, when there
   is nothing to repeat, those are out of order too.
   */
  lemma OffByDistance(session: Word, requests: seq<Header>, d: nat)
    requires session > 0 && 1 <= d <= HALF
    ensures var v := Serve(NewValidator(session), requests);
            && 0 < Behind(v.expected, d) < U32 && 0 < Ahead(v.expected, d) < U32
            && CheckSequence(v, Ahead(v.expected, d)) == Checked(v, SequenceOutOfOrder)
            && CheckSequence(v, Behind(v.expected, d)) ==
               Checked(v, if Taken(NewValidator(session), requests) == 0 then SequenceOutOfOrder
                          else if d == 1 then SequenceDuplicate else SequenceStale)
  {
    var v := Serve(NewValidator(session), requests);
    ValidatorCounts(session, requests, RequestHeader(session, 1, HELLO, 0));
    hide Serve;
    hide Taken;
    hide CheckRequest;
    OffByStarted(v, d);
  }

  lemma OffByStarted(v: Validator, d: nat)
    requires v.expected > 0 && (v.hasLast ==> Started(v)) && 1 <= d <= HALF
    ensures 0 < Behind(v.expected, d) < U32 && 0 < Ahead(v.expected, d) < U32
    ensures CheckSequence(v, Ahead(v.expected, d)) == Checked(v, SequenceOutOfOrder)
    ensures CheckSequence(v, Behind(v.expected, d)) ==
            Checked(v, if !v.hasLast then SequenceOutOfOrder else if d == 1 then SequenceDuplicate else SequenceStale)
  {
    ForwardOf(Behind(v.expected, d), v.expected);
    ForwardOf(Ahead(v.expected, d), v.expected);
  }

  /** And every sequence number is the expected one or at exactly one of those distances. */
  lemma EveryDistance(expected: Word, sequence: Word) returns (d: nat)
    requires expected > 0 && sequence > 0 && sequence != expected
    ensures 1 <= d <= HALF && (sequence == Behind(expected, d) || sequence == Ahead(expected, d))
    ensures forall e :: 1 <= e <= HALF && (sequence == Behind(expected, e) || sequence == Ahead(expected, e)) ==> e == d
    ensures !(sequence == Behind(expected, d) && sequence == Ahead(expected, d))
  {
    var forward: int := if sequence > expected then sequence - expected else sequence - expected + SPACE;
    d := if forward <= HALF then forward else SPACE - forward;
  }

  // ---------------------------------------------------------------- the host

  // `sequence.wrapping_add(1).max(1)`
  function HostNext(n: Word): Word { var sum := (n + 1) % U32; if sum > 1 then sum else 1 }

  lemma SameSteps(n: Word)
    ensures HostNext(n) == NextSequence(n)
  {
  }

  datatype Host = Host(session: Word, sequence: Word, valid: bool)

  /** A request the host is asked to make, and whether it arrives and is answered. */
  datatype Exchange = Exchange(kind: Byte, payload: seq<Byte>, delivered: bool, answered: bool)

  /** Both ends; `accepted` and `skipped` count requests the device took and numbers the host burnt, as history. */
  datatype Link = Link(host: Host, validator: Validator, accepted: nat, skipped: nat)

  function RequestHeader(session: Word, sequence: Word, kind: Byte, length: U16Value): Header {
    Header(MAGIC, VERSION, kind, 0, session, sequence, length, 0)
  }

  // `request_timeout`: the number is taken before the frame is built, and only a failed exchange poisons.
  function Attempt(l: Link, e: Exchange): Link {
    if !l.host.valid then l
    else
      var next := HostNext(l.host.sequence);
      var host := l.host.(sequence := next);
      if |e.payload| > MAX_PAYLOAD then l.(host := host, skipped := l.skipped + 1)
      else if !e.delivered then l.(host := host.(valid := false))
      else
        var c := CheckRequest(l.validator, RequestHeader(host.session, next, e.kind, |e.payload|));
        if c.error != NoError then l.(host := host.(valid := false), validator := c.validator)
        else Link(host.(valid := e.answered), c.validator, l.accepted + 1, l.skipped)
  }

  function Exec(l: Link, run: seq<Exchange>): Link
    decreases run
  {
    if run == [] then l else Exec(Attempt(l, run[0]), run[1..])
  }

  function Fresh(session: Word): Link { Link(Host(session, 0, true), NewValidator(session), 0, 0) }

  lemma NthEqual(a: nat, extra: nat)
    requires a > 0
    ensures Nth(a + extra) == Nth(a) <==> extra % SPACE == 0
  {
    var p, r := (a - 1) / SPACE, (a - 1) % SPACE;
    var q, t := extra / SPACE, extra % SPACE;
    assert a - 1 == SPACE * p + r && extra == SPACE * q + t;
    if r + t < SPACE {
      assert a + extra - 1 == SPACE * (p + q) + (r + t);
    } else {
      assert a + extra - 1 == SPACE * (p + q + 1) + (r + t - SPACE);
    }
  }

  predicate Inv(l: Link) {
    && l.validator.session == l.host.session && Expects(l.validator, l.accepted)
    && (l.host.valid ==> l.host.sequence == Nth(l.accepted + l.skipped))
  }

  lemma AttemptKeepsInv(l: Link, e: Exchange)
    requires Inv(l)
    ensures Inv(Attempt(l, e))
  {
    NthNext(l.accepted);
    NthNext(l.accepted + 1);
    NthNext(l.accepted + l.skipped);
    NthEqual(l.accepted + 1, l.skipped);
    SameSteps(l.host.sequence);
    SameSteps(Nth(l.accepted + l.skipped));
    hide Nth;
    hide ValidateHeader;
    hide HostNext;
  }

  lemma {:induction false} ExecKeepsInv(l: Link, run: seq<Exchange>)
    requires Inv(l)
    ensures Inv(Exec(l, run))
    decreases run
  {
    if run != [] {
      hide Attempt;
      hide Inv;
      AttemptKeepsInv(l, run[0]);
      ExecKeepsInv(Attempt(l, run[0]), run[1..]);
    }
  }

  /**
   Over unbounded runs, through wraparound: as long as the host's connection is usable, its next number
   is never 0 and is the one the firmware expects exactly when the numbers it burnt on payloads too
   large to frame are a multiple of the whole space; so always, if it never tried one.
   */
  lemma Lockstep(session: Word, run: seq<Exchange>)
    requires session > 0
    ensures var l := Exec(Fresh(session), run);
            && HostNext(l.host.sequence) > 0
            && (l.host.valid ==> (HostNext(l.host.sequence) == l.validator.expected <==> l.skipped % SPACE == 0))
            && ((forall i :: 0 <= i < |run| ==> |run[i].payload| <= MAX_PAYLOAD) ==> l.skipped == 0)
  {
    ExecKeepsInv(Fresh(session), run);
    SkipsNothing(Fresh(session), run);
    var l := Exec(Fresh(session), run);
    NthNext(l.accepted + l.skipped);
    NthEqual(l.accepted + 1, l.skipped);
    SameSteps(Nth(l.accepted + l.skipped));
  }

  lemma {:induction false} SkipsNothing(l: Link, run: seq<Exchange>)
    ensures (forall i :: 0 <= i < |run| ==> |run[i].payload| <= MAX_PAYLOAD) ==> Exec(l, run).skipped == l.skipped
    decreases run
  {
    if run != [] && forall i :: 0 <= i < |run| ==> |run[i].payload| <= MAX_PAYLOAD {
      assert |run[0].payload| <= MAX_PAYLOAD;
      assert Attempt(l, run[0]).skipped == l.skipped;
      hide Attempt;
      SkipsNothing(Attempt(l, run[0]), run[1..]);
    }
  }

  /** One oversized payload on a fresh connection is enough: the next request is out of order. */
  lemma OversizeBreaksLockstep(session: Word, large: Exchange, small: Exchange)
    requires session > 0 && |large.payload| > MAX_PAYLOAD
    requires small.delivered && small.payload == [] && IsRequest(small.kind)
    ensures var l := Attempt(Fresh(session), large);
            && l.host.valid
            && CheckRequest(l.validator, RequestHeader(session, HostNext(l.host.sequence), small.kind, 0)).error ==
               SequenceOutOfOrder
            && !Attempt(l, small).host.valid
  {
  }

  // ---------------------------------------------------------------- the two codecs

  // `encode_frame`
  function HostEncode(kind: Byte, session: Word, sequence: Word, payload: seq<Byte>): seq<Byte>
    requires session != 0 && sequence != 0 && |payload| <= MAX_PAYLOAD
  {
    [0x41, 0x44, 0x41, 0x50] + [1, kind, 0, 0] + PutU32(session) + PutU32(sequence) + PutU16(|payload|) + [0, 0]
        + payload
  }

  datatype HostDecoded = Payload(data: seq<Byte>) | Refused(code: nat) | Unusable

  // `check_header` and `decode_response`
  function HostDecode(s: seq<Byte>, expected: Byte, session: Word, sequence: Word): HostDecoded {
    if |s| < HEADER_SIZE then Unusable
    else if s[..4] != [0x41, 0x44, 0x41, 0x50] || s[4] != 1 then Unusable
    else if s[6..8] != [0, 0] || s[18..20] != [0, 0] then Unusable
    else if s[8..12] != PutU32(session) || s[12..16] != PutU32(sequence) then Unusable
    else
      var size := GetU16(s[16..18]);
      if size > MAX_PAYLOAD || |s| != HEADER_SIZE + size then Unusable
      else if s[5] == ERROR then (if size == 2 then Refused(GetU16(s[20..22])) else Unusable)
      else if s[5] != expected then Unusable
      else Payload(s[20..])
  }

  lemma MagicBytes()
    ensures PutU32(MAGIC) == [0x41, 0x44, 0x41, 0x50] && PutU16(0) == [0, 0]
  {
  }

  /** The host spells a request exactly as the firmware would, so the firmware decodes it to the same fields. */
  lemma HostSpeaksFirmware(kind: Byte, session: Word, sequence: Word, payload: seq<Byte>, rest: seq<Byte>)
    requires session != 0 && sequence != 0 && |payload| <= MAX_PAYLOAD
    ensures var h := RequestHeader(session, sequence, kind, |payload|);
            && HostEncode(kind, session, sequence, payload) == Encode(h, payload)
            && (HELLO <= kind <= ERROR && (kind == DAP_REQUEST ==> |payload| <= DAP_REQUEST_MAX) ==>
                  Decode(HostEncode(kind, session, sequence, payload) + rest) ==
                      Ok(h, payload, HEADER_SIZE + |payload|))
  {
    var h := RequestHeader(session, sequence, kind, |payload|);
    MagicBytes();
    hide PutU32;
    hide PutU16;
    assert [1, kind, 0, 0] == [1, kind] + [0, 0];
    assert HostEncode(kind, session, sequence, payload) == Encode(h, payload);
    if HELLO <= kind <= ERROR && (kind == DAP_REQUEST ==> |payload| <= DAP_REQUEST_MAX) {
      DecodeEncode(h, payload, rest);
    }
  }

  /** The host accepts a firmware response for its own session and sequence and nothing else of that shape. */
  lemma HostHearsFirmware(h: Header, payload: seq<Byte>, expected: Byte, session: Word, sequence: Word)
    requires Sendable(h, payload) && expected != ERROR
    ensures HostDecode(Encode(h, payload), expected, session, sequence) ==
            if h.session != session || h.sequence != sequence then Unusable
            else if h.kind == ERROR then (if |payload| == 2 then Refused(GetU16(payload)) else Unusable)
            else if h.kind != expected then Unusable
            else Payload(payload)
  {
    var s, b := Encode(h, payload), HeaderBytes(h);
    MagicBytes();
    HeaderFields(h);
    U16RoundTrip(h.payloadLength);
    U32RoundTrip(h.session);
    U32RoundTrip(h.sequence);
    U32RoundTrip(session);
    U32RoundTrip(sequence);
    hide HeaderBytes;
    hide PutU32;
    hide GetU32;
    hide PutU16;
    hide GetU16;
    assert s[..4] == b[..4] && s[6..8] == b[6..8] && s[8..12] == b[8..12] && s[12..16] == b[12..16];
    assert s[16..18] == b[16..18] && s[18..20] == b[18..20] && s[20..] == payload;
    if |payload| == 2 {
      assert s[20..22] == payload;
    }
  }
}
