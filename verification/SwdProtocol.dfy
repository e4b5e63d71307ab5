/**
 SWD transfers: the bus primitives of `firmware/components/swd_engine/swd_engine.c` with their
 direction guards, and the protocol of `firmware/components/swd_engine/swd_protocol.c` on top of
 them. Any hardware call may fail and the target may answer anything.
 */
module SwdProtocol {
  import opened Bytes

  const ACK_OK := 1
  const ACK_WAIT := 2
  const ACK_FAULT := 4
  const DATA_BITS := 33
  const FRAME_BITS := 40
  const EMBEDDED_IDLE := 6

  datatype Error = Fine | Hardware | InvalidArg | InvalidState | InvalidResponse | InvalidCrc

  /** What reached the pins. */
  datatype Event = Select(host: bool) | Sent(bits: nat, count: nat) | Received(count: nat)

  /** Hardware call `n` succeeds or not and, for a read, delivers `rx(n)`; then the engine's settings. */
  datatype Env = Env(ok: nat -> bool, rx: nat -> nat, turnaround: nat, idle: nat, dataPhase: bool)

  // What `airdap_swd_configure_bus` and the 8-bit idle setting allow.
  predicate Configured(e: Env) { 1 <= e.turnaround <= 4 && e.idle < 256 }

  /** `host`: the host drives. `refused` counts primitives called in the wrong direction or with a bad count. */
  datatype Bus = Bus(host: bool, calls: nat, refused: nat, log: seq<Event>)

  datatype Did = Did(bus: Bus, error: Error, bits: nat)

  // ---------------------------------------------------------------- primitives

  function Pow2(n: nat): nat { if n == 0 then 1 else 2 * Pow2(n - 1) }

  function Low(bits: nat, count: nat): nat
    requires Pow2(count) > 0
  {
    bits % Pow2(count)
  }

  lemma {:induction false} Pow2Positive(n: nat)
    ensures Pow2(n) > 0
  {
    if n > 0 {
      Pow2Positive(n - 1);
    }
  }

  function Call(b: Bus, e: Env, event: Event, host: bool): Did {
    if e.ok(b.calls) then Did(b.(host := host, calls := b.calls + 1, log := b.log + [event]), Fine, 0)
    else Did(b.(calls := b.calls + 1), Hardware, 0)
  }

  function SetHost(b: Bus, e: Env, on: bool): Did { Call(b, e, Select(on), on) }

  function WriteBits(b: Bus, e: Env, bits: nat, count: nat): Did {
    if !b.host || count == 0 || count > 64 then Did(b.(refused := b.refused + 1), InvalidState, 0)
    else Call(b, e, Sent(bits, count), b.host)
  }

  function ReadBits(b: Bus, e: Env, count: nat): Did {
    if b.host || count == 0 || count > 64 then Did(b.(refused := b.refused + 1), InvalidState, 0)
    else
      Pow2Positive(count);
      var d := Call(b, e, Received(count), b.host);
      if d.error == Fine then d.(bits := Low(e.rx(b.calls), count)) else d
  }

  // One turnaround clock is supplied by the first ACK read; with no turnaround at all the count wraps and is refused.
  function Turnaround(b: Bus, e: Env, host: bool): Did {
    if host then
      if b.host then Did(b.(refused := b.refused + 1), InvalidState, 0)
      else
        var d := ReadBits(b, e, e.turnaround);
        if d.error != Fine then d else SetHost(d.bus, e, true)
    else if !b.host then Did(b.(refused := b.refused + 1), InvalidState, 0)
    else
      var d := SetHost(b, e, false);
      if d.error != Fine || e.turnaround == 1 then d
      else ReadBits(d.bus, e, if e.turnaround == 0 then 0 else e.turnaround - 1)
  }

  // ---------------------------------------------------------------- idle cycles

  // The transmitter cannot send one bit, nor more than 64.
  function Chunk(remaining: nat): nat {
    if remaining == 65 then 63 else if remaining == 1 then 2 else if remaining > 64 then 64 else remaining
  }

  function IdleChunks(n: nat): seq<nat>
    decreases n
  {
    if n == 0 then [] else [Chunk(n)] + IdleChunks(if Chunk(n) > n then 0 else n - Chunk(n))
  }

  function Sum(s: seq<nat>): nat { if s == [] then 0 else s[0] + Sum(s[1..]) }

  /** Every idle chunk is 2 to 64 bits, and together they are what was asked, except 2 for 1. */
  lemma {:induction false} IdleChunksExact(n: nat)
    ensures forall i :: 0 <= i < |IdleChunks(n)| ==> 2 <= IdleChunks(n)[i] <= 64
    ensures Sum(IdleChunks(n)) == if n == 1 then 2 else n
    decreases n
  {
    if n > 0 {
      var next := if Chunk(n) > n then 0 else n - Chunk(n);
      IdleChunksExact(next);
      assert next != 1;
      assert IdleChunks(n)[1..] == IdleChunks(next);
    }
  }

  function WriteIdle(b: Bus, e: Env, remaining: nat): Did
    decreases remaining
  {
    if remaining == 0 then Did(b, Fine, 0)
    else
      var chunk := Chunk(remaining);
      var d := WriteBits(b, e, 0, chunk);
      if d.error != Fine then d else WriteIdle(d.bus, e, if chunk > remaining then 0 else remaining - chunk)
  }

  // ---------------------------------------------------------------- parity

  function Parity(n: nat): nat { if n == 0 then 0 else (n % 2 + Parity(n / 2)) % 2 }

  method Parity32(value: Word) returns (parity: nat)
    ensures parity == Parity(value)
  {
    var v: nat := value;
    parity := 0;
    while v != 0
      invariant (parity + Parity(v)) % 2 == Parity(value) && parity < 2
      decreases v
    {
      parity := (parity + v % 2) % 2;
      v := v / 2;
    }
  }

  lemma {:induction false} ParityBit(n: nat)
    ensures Parity(n) < 2
  {
    if n > 0 {
      ParityBit(n / 2);
    }
  }

  lemma ParityUnfolds(n: nat)
    ensures Parity(n) == (n % 2 + Parity(n / 2)) % 2
  {
    if n == 0 {
      assert Parity(n / 2) == 0;
    }
  }

  lemma Halves(n: nat, half: nat)
    ensures (n + 2 * half) / 2 == n / 2 + half && (n + 2 * half) % 2 == n % 2
  {
  }

  lemma Flips(bit: nat, parity: nat)
    requires bit < 2 && parity < 2
    ensures (bit + (1 - parity)) % 2 == 1 - (bit + parity) % 2
  {
  }

  // A set bit above all others flips the parity.
  lemma {:induction false} ParityTop(n: nat, k: nat)
    requires n < Pow2(k)
    ensures Parity(n + Pow2(k)) == 1 - Parity(n) && Parity(n) < 2
    decreases k
  {
    ParityBit(n);
    if k == 0 {
      ParityUnfolds(1);
      assert n == 0 && Parity(1 / 2) == 0;
    } else {
      var half := Pow2(k - 1);
      Halves(n, half);
      ParityTop(n / 2, k - 1);
      ParityUnfolds(n);
      ParityUnfolds(n + 2 * half);
      hide Parity;
      hide Pow2;
      Flips(n % 2, Parity(n / 2));
    }
  }

  const BIT_32 := 0x1_0000_0000

  lemma {:induction false} Pow2Adds(a: nat, b: nat)
    ensures Pow2(a + b) == Pow2(a) * Pow2(b)
    decreases b
  {
    if b > 0 {
      Pow2Adds(a, b - 1);
      assert a + b - 1 == a + (b - 1);
      assert 2 * (Pow2(a) * Pow2(b - 1)) == Pow2(a) * (2 * Pow2(b - 1));
    }
  }

  lemma Pow2Of32()
    ensures Pow2(32) == BIT_32 && Pow2(33) == 2 * BIT_32 && Pow2(3) == 8
  {
    assert Pow2(4) == 16;
    Pow2Adds(4, 4);
    Pow2Adds(8, 8);
    Pow2Adds(16, 16);
    assert Pow2(33) == 2 * Pow2(32);
    assert Pow2(3) == 8;
  }

  // Data and parity as they go over the wire: 33 bits.
  function WithParity(data: Word): nat { ParityBit(data); data + BIT_32 * Parity(data) }

  /** A word with its parity bit is even; a received 33-bit value is accepted exactly when it is. */
  lemma ParityChecks(data: Word, received: nat)
    requires received < 2 * BIT_32
    ensures Parity(WithParity(data)) == 0
    ensures received / BIT_32 == Parity(received % BIT_32) <==> Parity(received) == 0
  {
    Pow2Of32();
    hide Parity;
    hide Pow2;
    ParityTop(data, 32);
    if received < BIT_32 {
      ParityBit(received);
      assert received / BIT_32 == 0 && received % BIT_32 == received;
    } else {
      ParityTop(received - BIT_32, 32);
      assert received / BIT_32 == 1 && received % BIT_32 == received - BIT_32;
    }
  }

  // ---------------------------------------------------------------- requests

  /** Port (DP 0, AP 1), direction (write 0, read 1) and register address. */
  datatype Request = Request(port: nat, read: nat, address: nat)

  predicate ValidRequest(r: Request) { r.port < 2 && r.read < 2 && r.address <= 0xC && r.address % 4 == 0 }

  function EncodeRequest(r: Request): nat {
    var a2, a3 := r.address / 4 % 2, r.address / 8 % 2;
    1 + 2 * r.port + 4 * r.read + 8 * a2 + 16 * a3 + 32 * ((r.port + r.read + a2 + a3) % 2) + 128
  }

  /** The request byte: start and park set, stop clear, even parity over the five fields, and the fields readable. */
  lemma RequestOnWire(r: Request)
    requires ValidRequest(r)
    ensures var q := EncodeRequest(r);
            && q < 256 && q % 2 == 1 && q / 64 == 2
            && q / 2 % 2 == r.port && q / 4 % 2 == r.read && q / 8 % 4 * 4 == r.address
            && (q / 2 % 2 + q / 4 % 2 + q / 8 % 2 + q / 16 % 2 + q / 32 % 2) % 2 == 0
  {
    RequestFields(r.port, r.read, r.address / 4 % 2, r.address / 8 % 2);
    assert r.address == 4 * (r.address / 4 % 2) + 8 * (r.address / 8 % 2);
  }

  lemma PackedFields(port: nat, read: nat, a2: nat, a3: nat, parity: nat)
    requires port < 2 && read < 2 && a2 < 2 && a3 < 2 && parity < 2
    ensures var q := 1 + 2 * port + 4 * read + 8 * a2 + 16 * a3 + 32 * parity + 128;
            && q < 256 && q % 2 == 1 && q / 64 == 2
            && q / 2 % 2 == port && q / 4 % 2 == read && q / 8 % 2 == a2 && q / 16 % 2 == a3 && q / 32 % 2 == parity
            && q / 8 % 4 == a2 + 2 * a3
  {
    var q := 1 + 2 * port + 4 * read + 8 * a2 + 16 * a3 + 32 * parity + 128;
    assert q / 32 == parity + 4;
    assert q / 16 == a3 + 2 * (parity + 4);
    assert q / 8 == a2 + 2 * (a3 + 2 * (parity + 4));
    assert q / 4 == read + 2 * (a2 + 2 * (a3 + 2 * (parity + 4)));
    assert q / 2 == port + 2 * (read + 2 * (a2 + 2 * (a3 + 2 * (parity + 4))));
  }

  lemma EvenOfFive(sum: nat)
    ensures (sum + sum % 2) % 2 == 0
  {
  }

  lemma RequestFields(port: nat, read: nat, a2: nat, a3: nat)
    requires port < 2 && read < 2 && a2 < 2 && a3 < 2
    ensures var parity := (port + read + a2 + a3) % 2;
            var q := 1 + 2 * port + 4 * read + 8 * a2 + 16 * a3 + 32 * parity + 128;
            && q < 256 && q % 2 == 1 && q / 64 == 2
            && q / 2 % 2 == port && q / 4 % 2 == read && q / 8 % 2 == a2 && q / 16 % 2 == a3 && q / 32 % 2 == parity
            && q / 8 % 4 == a2 + 2 * a3
            && (port + read + a2 + a3 + parity) % 2 == 0
  {
    var parity := (port + read + a2 + a3) % 2;
    PackedFields(port, read, a2, a3, parity);
    EvenOfFive(port + read + a2 + a3);
  }

  // ---------------------------------------------------------------- one attempt

  function RestoreHost(b: Bus, e: Env): Did {
    var d := Turnaround(b, e, true);
    if d.error != Fine then d else WriteIdle(d.bus, e, if e.idle == 0 then 1 else e.idle)
  }

  function WriteData(b: Bus, e: Env, dataBits: nat): Did {
    var d := WriteBits(b, e, 2 * dataBits, FRAME_BITS);
    if d.error != Fine then d else WriteIdle(d.bus, e, if e.idle >= EMBEDDED_IDLE then e.idle - EMBEDDED_IDLE else 0)
  }

  // Reading 33 bits nobody wants, then taking the bus back whatever came of it.
  function SkipData(b: Bus, e: Env): Did {
    var d := ReadBits(b, e, DATA_BITS);
    if d.error != Fine then d.(bus := RestoreHost(d.bus, e).bus) else RestoreHost(d.bus, e)
  }

  function ErrorPhase(b: Bus, e: Env, r: Request): Did {
    if !e.dataPhase then RestoreHost(b, e)
    else if r.read == 1 then SkipData(b, e)
    else
      var d := Turnaround(b, e, true);
      if d.error != Fine then d else WriteData(d.bus, e, 0)
  }

  datatype Tried = Tried(bus: Bus, error: Error, ack: nat, data: Word)

  function ReadPhase(b: Bus, e: Env, data: Word): Tried {
    var d := ReadBits(b, e, DATA_BITS);
    if d.error != Fine then Tried(RestoreHost(d.bus, e).bus, d.error, ACK_OK, data)
    else
      var end := RestoreHost(d.bus, e);
      if end.error != Fine then Tried(end.bus, end.error, ACK_OK, data)
      else if d.bits / BIT_32 % 2 != Parity(d.bits % BIT_32) then Tried(end.bus, InvalidCrc, ACK_OK, data)
      else Tried(end.bus, Fine, ACK_OK, d.bits % BIT_32)
  }

  function AfterAck(b: Bus, e: Env, r: Request, data: Word, ack: nat): Tried {
    if ack != ACK_OK && ack != ACK_WAIT && ack != ACK_FAULT then
      var d := SkipData(b, e);
      Tried(d.bus, if d.error == Fine then InvalidResponse else d.error, ack, data)
    else if ack != ACK_OK then
      var d := ErrorPhase(b, e, r);
      Tried(d.bus, d.error, ack, data)
    else if r.read == 1 then ReadPhase(b, e, data)
    else
      var d := Turnaround(b, e, true);
      if d.error != Fine then Tried(d.bus, d.error, ack, data)
      else
        var w := WriteData(d.bus, e, WithParity(data));
        Tried(w.bus, w.error, ack, data)
  }

  function Attempt(b: Bus, e: Env, r: Request, data: Word, ack: nat): Tried {
    var sent := WriteBits(b, e, EncodeRequest(r), 8);
    if sent.error != Fine then Tried(sent.bus, sent.error, ack, data)
    else
      var turned := Turnaround(sent.bus, e, false);
      if turned.error != Fine then Tried(turned.bus, turned.error, ack, data)
      else
        var got := ReadBits(turned.bus, e, 3);
        if got.error != Fine then Tried(RestoreHost(got.bus, e).bus, got.error, ack, data)
        else AfterAck(got.bus, e, r, data, got.bits)
  }

  // At most `tries` attempts, going on only after WAIT.
  function Transfer(b: Bus, e: Env, r: Request, data: Word, ack: nat, tries: nat): Tried
    requires tries > 0
    decreases tries
  {
    var t := Attempt(b, e, r, data, ack);
    if t.error != Fine || t.ack != ACK_WAIT || tries == 1 then t else Transfer(t.bus, e, r, t.data, t.ack, tries - 1)
  }

  const WORD := 0x1_0000_0000
  const MAX_RETRIES := 0xFFFF_FFFF

  // Within `n` tries there is an attempt that is not answered by WAIT.
  predicate Settles(b: Bus, e: Env, r: Request, data: Word, ack: nat, n: nat)
    requires n > 0
  {
    var t := Transfer(b, e, r, data, ack, n);
    t.error != Fine || t.ack != ACK_WAIT
  }

  ghost predicate SettlesSome(b: Bus, e: Env, r: Request, data: Word, ack: nat) {
    exists n: nat :: n > 0 && Settles(b, e, r, data, ack, n)
  }

  // Tries beyond the one that settles it make no difference.
  lemma {:induction false} SettlesOnce(b: Bus, e: Env, r: Request, data: Word, ack: nat, m: nat, n: nat)
    requires m > 0 && n > 0 && Settles(b, e, r, data, ack, m) && Settles(b, e, r, data, ack, n)
    ensures Transfer(b, e, r, data, ack, m) == Transfer(b, e, r, data, ack, n)
    decreases m
  {
    hide Attempt;
    var t := Attempt(b, e, r, data, ack);
    if t.error == Fine && t.ack == ACK_WAIT {
      SettlesOnce(t.bus, e, r, t.data, t.ack, m - 1, n - 1);
    }
  }

  // ---------------------------------------------------------------- direction discipline

  predicate AllOk(e: Env, from: nat, to: nat) { forall n :: from <= n < to ==> e.ok(n) }

  // No primitive was refused; on success the host drives; with working hardware it succeeds.
  predicate Clean(b: Bus, e: Env, d: Did) {
    && d.bus.refused == b.refused && b.calls <= d.bus.calls
    && (d.error == Fine ==> d.bus.host)
    && (AllOk(e, b.calls, d.bus.calls) ==> d.error == Fine)
  }

  lemma {:induction false} WriteIdleClean(b: Bus, e: Env, remaining: nat)
    requires b.host
    ensures Clean(b, e, WriteIdle(b, e, remaining))
    ensures WriteIdle(b, e, remaining).error == Fine ==>
              WriteIdle(b, e, remaining).bus.log == b.log + IdleEvents(IdleChunks(remaining))
    decreases remaining
  {
    if remaining > 0 {
      var chunk := Chunk(remaining);
      var d := WriteBits(b, e, 0, chunk);
      var next := if chunk > remaining then 0 else remaining - chunk;
      if d.error == Fine {
        WriteIdleClean(d.bus, e, next);
        assert IdleChunks(remaining)[1..] == IdleChunks(next);
        assert b.log + [Sent(0, chunk)] + IdleEvents(IdleChunks(next)) ==
               b.log + ([Sent(0, chunk)] + IdleEvents(IdleChunks(next)));
      } else {
        assert !e.ok(b.calls);
      }
    }
  }

  function IdleEvents(chunks: seq<nat>): seq<Event> {
    if chunks == [] then [] else [Sent(0, chunks[0])] + IdleEvents(chunks[1..])
  }

  lemma TakeBack(b: Bus, e: Env)
    requires !b.host && Configured(e)
    ensures Clean(b, e, Turnaround(b, e, true))
  {
    var d := ReadBits(b, e, e.turnaround);
    if d.error == Fine {
      var s := SetHost(d.bus, e, true);
      if s.error != Fine {
        assert !e.ok(d.bus.calls);
      }
    } else {
      assert !e.ok(b.calls);
    }
  }

  lemma RestoreClean(b: Bus, e: Env)
    requires !b.host && Configured(e)
    ensures Clean(b, e, RestoreHost(b, e))
  {
    TakeBack(b, e);
    hide Turnaround;
    hide WriteIdle;
    var d := Turnaround(b, e, true);
    if d.error == Fine {
      WriteIdleClean(d.bus, e, if e.idle == 0 then 1 else e.idle);
    }
  }

  lemma WriteDataClean(b: Bus, e: Env, dataBits: nat)
    requires b.host
    ensures Clean(b, e, WriteData(b, e, dataBits))
  {
    hide WriteIdle;
    var d := WriteBits(b, e, 2 * dataBits, FRAME_BITS);
    if d.error == Fine {
      WriteIdleClean(d.bus, e, if e.idle >= EMBEDDED_IDLE then e.idle - EMBEDDED_IDLE else 0);
    } else {
      assert !e.ok(b.calls);
    }
  }

  lemma SkipClean(b: Bus, e: Env)
    requires !b.host && Configured(e)
    ensures Clean(b, e, SkipData(b, e))
  {
    var d := ReadBits(b, e, DATA_BITS);
    if d.error != Fine {
      assert !e.ok(b.calls);
    }
    RestoreClean(d.bus, e);
    hide RestoreHost;
  }

  lemma ErrorPhaseClean(b: Bus, e: Env, r: Request)
    requires !b.host && Configured(e)
    ensures Clean(b, e, ErrorPhase(b, e, r))
  {
    RestoreClean(b, e);
    SkipClean(b, e);
    TakeBack(b, e);
    hide RestoreHost;
    hide SkipData;
    hide Turnaround;
    var d := Turnaround(b, e, true);
    if d.error == Fine {
      WriteDataClean(d.bus, e, 0);
    }
    hide WriteData;
  }

  // The same for an attempt, whose protocol errors leave the host driving too.
  predicate CleanTry(b: Bus, e: Env, t: Tried) {
    && t.bus.refused == b.refused && b.calls <= t.bus.calls
    && (t.error == Fine || t.error == InvalidResponse || t.error == InvalidCrc ==> t.bus.host)
    && (AllOk(e, b.calls, t.bus.calls) ==> t.error == Fine || t.error == InvalidResponse || t.error == InvalidCrc)
    && t.error != InvalidState
  }

  lemma ReadPhaseClean(b: Bus, e: Env, data: Word)
    requires !b.host && Configured(e)
    ensures CleanTry(b, e, ReadPhase(b, e, data))
  {
    var d := ReadBits(b, e, DATA_BITS);
    if d.error != Fine {
      assert !e.ok(b.calls);
    }
    RestoreClean(d.bus, e);
    RestoreErrors(d.bus, e);
    hide RestoreHost;
    hide Parity;
  }

  // With nothing refused, an error is a hardware error.
  lemma RestoreErrors(b: Bus, e: Env)
    requires !b.host && Configured(e)
    ensures RestoreHost(b, e).error == Fine || RestoreHost(b, e).error == Hardware
    ensures Turnaround(b, e, true).error == Fine || Turnaround(b, e, true).error == Hardware
  {
    TakeBack(b, e);
    var d := Turnaround(b, e, true);
    if d.error == Fine {
      WriteIdleErrors(d.bus, e, if e.idle == 0 then 1 else e.idle);
    }
    hide WriteIdle;
  }

  lemma {:induction false} WriteIdleErrors(b: Bus, e: Env, remaining: nat)
    requires b.host
    ensures WriteIdle(b, e, remaining).error == Fine || WriteIdle(b, e, remaining).error == Hardware
    decreases remaining
  {
    if remaining > 0 {
      var chunk := Chunk(remaining);
      var d := WriteBits(b, e, 0, chunk);
      if d.error == Fine {
        WriteIdleErrors(d.bus, e, if chunk > remaining then 0 else remaining - chunk);
      }
    }
  }

  lemma PhaseErrors(b: Bus, e: Env, r: Request, dataBits: nat)
    requires !b.host && Configured(e)
    ensures SkipData(b, e).error == Fine || SkipData(b, e).error == Hardware
    ensures ErrorPhase(b, e, r).error == Fine || ErrorPhase(b, e, r).error == Hardware
    ensures Turnaround(b, e, true).error == Fine ==>
              var w := WriteData(Turnaround(b, e, true).bus, e, dataBits); w.error == Fine || w.error == Hardware
  {
    var d := ReadBits(b, e, DATA_BITS);
    RestoreErrors(b, e);
    RestoreErrors(d.bus, e);
    TakeBack(b, e);
    hide RestoreHost;
    hide Turnaround;
    var t := Turnaround(b, e, true);
    if t.error == Fine {
      WriteDataErrors(t.bus, e, 0);
      WriteDataErrors(t.bus, e, dataBits);
    }
    hide WriteData;
  }

  lemma WriteDataErrors(b: Bus, e: Env, dataBits: nat)
    requires b.host
    ensures WriteData(b, e, dataBits).error == Fine || WriteData(b, e, dataBits).error == Hardware
  {
    var d := WriteBits(b, e, 2 * dataBits, FRAME_BITS);
    if d.error == Fine {
      WriteIdleErrors(d.bus, e, if e.idle >= EMBEDDED_IDLE then e.idle - EMBEDDED_IDLE else 0);
    }
    hide WriteIdle;
  }

  lemma AfterAckClean(b: Bus, e: Env, r: Request, data: Word, ack: nat)
    requires !b.host && Configured(e)
    ensures CleanTry(b, e, AfterAck(b, e, r, data, ack))
  {
    SkipClean(b, e);
    ErrorPhaseClean(b, e, r);
    ReadPhaseClean(b, e, data);
    TakeBack(b, e);
    RestoreErrors(b, e);
    PhaseErrors(b, e, r, WithParity(data));
    var d := Turnaround(b, e, true);
    if d.error == Fine {
      WriteDataClean(d.bus, e, WithParity(data));
    }
    hide SkipData;
    hide ErrorPhase;
    hide ReadPhase;
    hide Turnaround;
    hide WriteData;
    hide WithParity;
    hide RestoreHost;
  }

  lemma LetGo(b: Bus, e: Env)
    requires b.host && Configured(e)
    ensures var d := Turnaround(b, e, false);
            && d.bus.refused == b.refused && b.calls <= d.bus.calls
            && (d.error == Fine ==> !d.bus.host) && (d.error == Fine || d.error == Hardware)
            && (AllOk(e, b.calls, d.bus.calls) ==> d.error == Fine)
  {
    var d := SetHost(b, e, false);
    if d.error != Fine {
      assert !e.ok(b.calls);
    } else if e.turnaround > 1 {
      var t := ReadBits(d.bus, e, e.turnaround - 1);
      if t.error != Fine {
        assert !e.ok(d.bus.calls);
      }
    }
  }

  lemma AttemptClean(b: Bus, e: Env, r: Request, data: Word, ack: nat)
    requires b.host && Configured(e)
    ensures CleanTry(b, e, Attempt(b, e, r, data, ack))
  {
    hide EncodeRequest;
    var sent := WriteBits(b, e, EncodeRequest(r), 8);
    if sent.error != Fine {
      assert !e.ok(b.calls);
    } else {
      LetGo(sent.bus, e);
      hide Turnaround;
      var turned := Turnaround(sent.bus, e, false);
      if turned.error == Fine {
        var got := ReadBits(turned.bus, e, 3);
        if got.error != Fine {
          assert !e.ok(turned.bus.calls);
          RestoreClean(got.bus, e);
        } else {
          AfterAckClean(got.bus, e, r, data, got.bits);
        }
        hide AfterAck;
        hide RestoreHost;
      }
    }
  }

  /**
   For every target reply and every hardware failure, a transfer that starts with the host driving
   never writes while the target side is selected nor reads while the host drives; and if all hardware
   calls succeed it ends with the host driving and reports at most a protocol error.
   */
  lemma {:induction false} TransferClean(b: Bus, e: Env, r: Request, data: Word, ack: nat, tries: nat)
    requires b.host && Configured(e) && tries > 0
    ensures CleanTry(b, e, Transfer(b, e, r, data, ack, tries))
    decreases tries
  {
    AttemptClean(b, e, r, data, ack);
    hide Attempt;
    var t := Attempt(b, e, r, data, ack);
    if t.error == Fine && t.ack == ACK_WAIT && tries > 1 {
      TransferClean(t.bus, e, r, t.data, t.ack, tries - 1);
    }
  }

  // ---------------------------------------------------------------- how many attempts

  predicate IsRequestEvent(e: Event) { e.Sent? && e.count == 8 && e.bits >= 128 }

  // Requests that went out.
  function Requests(log: seq<Event>): nat {
    if log == [] then 0 else Requests(log[..|log| - 1]) + (if IsRequestEvent(log[|log| - 1]) then 1 else 0)
  }

  lemma RequestsAppend(log: seq<Event>, e: Event)
    ensures Requests(log + [e]) == Requests(log) + if IsRequestEvent(e) then 1 else 0
  {
    assert (log + [e])[..|log + [e]| - 1] == log;
  }

  lemma CallRequests(b: Bus, e: Env, event: Event, host: bool)
    ensures Requests(Call(b, e, event, host).bus.log) <= Requests(b.log) + if IsRequestEvent(event) then 1 else 0
    ensures !IsRequestEvent(event) ==> Requests(Call(b, e, event, host).bus.log) == Requests(b.log)
  {
    RequestsAppend(b.log, event);
  }

  lemma QuietPrimitives(b: Bus, e: Env, bits: nat, count: nat, host: bool)
    ensures Requests(ReadBits(b, e, count).bus.log) == Requests(b.log)
    ensures Requests(SetHost(b, e, host).bus.log) == Requests(b.log)
    ensures count != 8 || bits == 0 ==> Requests(WriteBits(b, e, bits, count).bus.log) == Requests(b.log)
    ensures Requests(WriteBits(b, e, bits, count).bus.log) <= Requests(b.log) + 1
  {
    hide Requests;
    CallRequests(b, e, Received(count), b.host);
    CallRequests(b, e, Select(host), host);
    CallRequests(b, e, Sent(bits, count), b.host);
  }

  lemma QuietTurn(b: Bus, e: Env, host: bool)
    ensures Requests(Turnaround(b, e, host).bus.log) == Requests(b.log)
  {
    QuietPrimitives(b, e, 0, e.turnaround, false);
    QuietPrimitives(ReadBits(b, e, e.turnaround).bus, e, 0, 1, true);
    QuietPrimitives(SetHost(b, e, false).bus, e, 0, if e.turnaround == 0 then 0 else e.turnaround - 1, true);
    hide Requests;
    hide ReadBits;
    hide SetHost;
  }

  lemma {:induction false} QuietIdle(b: Bus, e: Env, remaining: nat)
    ensures Requests(WriteIdle(b, e, remaining).bus.log) == Requests(b.log)
    decreases remaining
  {
    hide Requests;
    if remaining > 0 {
      var chunk := Chunk(remaining);
      QuietPrimitives(b, e, 0, chunk, true);
      QuietIdle(WriteBits(b, e, 0, chunk).bus, e, if chunk > remaining then 0 else remaining - chunk);
    }
  }

  lemma QuietPhases(b: Bus, e: Env, dataBits: nat)
    ensures Requests(RestoreHost(b, e).bus.log) == Requests(b.log)
    ensures Requests(WriteData(b, e, dataBits).bus.log) == Requests(b.log)
    ensures Requests(SkipData(b, e).bus.log) == Requests(b.log)
  {
    hide Requests;
    hide Turnaround;
    hide WriteIdle;
    hide WriteBits;
    hide ReadBits;
    QuietRestore(b, e);
    QuietPrimitives(b, e, 2 * dataBits, FRAME_BITS, true);
    QuietIdle(WriteBits(b, e, 2 * dataBits, FRAME_BITS).bus, e,
              if e.idle >= EMBEDDED_IDLE then e.idle - EMBEDDED_IDLE else 0);
    QuietPrimitives(b, e, 0, DATA_BITS, true);
    QuietRestore(ReadBits(b, e, DATA_BITS).bus, e);
  }

  lemma QuietRestore(b: Bus, e: Env)
    ensures Requests(RestoreHost(b, e).bus.log) == Requests(b.log)
  {
    hide Requests;
    hide Turnaround;
    hide WriteIdle;
    QuietTurn(b, e, true);
    QuietIdle(Turnaround(b, e, true).bus, e, if e.idle == 0 then 1 else e.idle);
  }

  lemma QuietAfterAck(b: Bus, e: Env, r: Request, data: Word, ack: nat)
    ensures Requests(AfterAck(b, e, r, data, ack).bus.log) == Requests(b.log)
  {
    hide Requests;
    QuietPhases(b, e, 0);
    QuietTurn(b, e, true);
    var t := Turnaround(b, e, true).bus;
    QuietPhases(t, e, 0);
    QuietPhases(t, e, WithParity(data));
    QuietPrimitives(b, e, 0, DATA_BITS, true);
    QuietRestore(ReadBits(b, e, DATA_BITS).bus, e);
    hide RestoreHost;
    hide WriteData;
    hide SkipData;
    hide Turnaround;
    hide ReadBits;
    hide Parity;
    hide WithParity;
  }

  lemma OneRequest(b: Bus, e: Env, r: Request, data: Word, ack: nat)
    ensures Requests(Attempt(b, e, r, data, ack).bus.log) <= Requests(b.log) + 1
  {
    hide Requests;
    QuietPrimitives(b, e, EncodeRequest(r), 8, true);
    var sent := WriteBits(b, e, EncodeRequest(r), 8).bus;
    QuietTurn(sent, e, false);
    var turned := Turnaround(sent, e, false).bus;
    QuietPrimitives(turned, e, 0, 3, true);
    var got := ReadBits(turned, e, 3);
    QuietRestore(got.bus, e);
    QuietAfterAck(got.bus, e, r, data, got.bits);
    hide RestoreHost;
    hide AfterAck;
    hide Turnaround;
    hide ReadBits;
    hide WriteBits;
    hide EncodeRequest;
  }

  /** A transfer with `tries` = wait_retries + 1 puts at most that many requests on the wire. */
  lemma {:induction false} AttemptsBounded(b: Bus, e: Env, r: Request, data: Word, ack: nat, tries: nat)
    requires tries > 0
    ensures Requests(Transfer(b, e, r, data, ack, tries).bus.log) <= Requests(b.log) + tries
    decreases tries
  {
    hide Requests;
    OneRequest(b, e, r, data, ack);
    hide Attempt;
    var t := Attempt(b, e, r, data, ack);
    if t.error == Fine && t.ack == ACK_WAIT && tries > 1 {
      AttemptsBounded(t.bus, e, r, t.data, t.ack, tries - 1);
    }
  }

  // ---------------------------------------------------------------- data

  // The word delivered by hardware call `n`, read as 33 bits of even parity.
  ghost predicate GoodWord(e: Env, n: nat, data: Word) {
    Pow2Of32();
    Parity(Low(e.rx(n), DATA_BITS)) == 0 && data == Low(e.rx(n), DATA_BITS) % BIT_32
  }

  lemma TopBit(bits: nat)
    requires bits < 2 * BIT_32
    ensures bits / BIT_32 % 2 == bits / BIT_32
  {
    assert bits / BIT_32 < 2;
  }

  lemma Read33(b: Bus, e: Env)
    ensures var d := ReadBits(b, e, DATA_BITS);
            d.error == Fine ==>
              && d.bits < 2 * BIT_32 && d.bus.calls == b.calls + 1 && e.ok(b.calls)
              && (d.bits / BIT_32 % 2 == Parity(d.bits % BIT_32) <==> GoodWord(e, b.calls, d.bits % BIT_32))
  {
    var d := ReadBits(b, e, DATA_BITS);
    Pow2Of32();
    hide Pow2;
    if d.error == Fine {
      TopBit(d.bits);
      hide Parity;
      ParityChecks(0, d.bits);
    }
  }

  lemma ReadPhaseData(b: Bus, e: Env, data: Word)
    ensures var t := ReadPhase(b, e, data);
            if t.error == Fine then b.calls < t.bus.calls && e.ok(b.calls) && GoodWord(e, b.calls, t.data)
            else t.data == data
  {
    hide RestoreHost;
    hide Parity;
    hide GoodWord;
    hide ReadBits;
    Read33(b, e);
    PhasesGrow(ReadBits(b, e, DATA_BITS).bus, e, 0);
  }

  // The hardware call that reads the ACK of an attempt whose request is call `start`; the data phase is the next one.
  function AckCall(e: Env, start: nat): nat { if e.turnaround == 1 then start + 2 else start + 3 }

  // The hardware call that is the request of the last attempt.
  function LastStart(b: Bus, e: Env, r: Request, data: Word, ack: nat, tries: nat): nat
    requires tries > 0
    decreases tries
  {
    var t := Attempt(b, e, r, data, ack);
    if t.error != Fine || t.ack != ACK_WAIT || tries == 1 then b.calls
    else LastStart(t.bus, e, r, t.data, t.ack, tries - 1)
  }

  // The attempt whose request is call `start` read ACK OK and then 33 bits of even parity, of which `data` is the word.
  ghost predicate ReadBy(e: Env, start: nat, end: nat, data: Word) {
    Pow2Of32();
    var n := AckCall(e, start);
    && n + 1 < end && e.ok(n) && e.ok(n + 1)
    && Low(e.rx(n), 3) == ACK_OK && GoodWord(e, n + 1, data)
  }

  /**
   The caller's word changes only when a read succeeds with ACK OK, and then to the 32 bits that the last
   attempt received, with the right parity bit, in the data phase right after that ACK; in every other case
   it is left alone.
   */
  lemma {:induction false} DataOnlyFromGoodRead(b: Bus, e: Env, r: Request, data: Word, ack: nat, tries: nat)
    requires tries > 0
    ensures var t := Transfer(b, e, r, data, ack, tries);
            if r.read == 1 && t.error == Fine && t.ack == ACK_OK
            then ReadBy(e, LastStart(b, e, r, data, ack, tries), t.bus.calls, t.data)
            else t.data == data
    decreases tries
  {
    AttemptData(b, e, r, data, ack);
    hide Attempt;
    hide ReadBy;
    var t := Attempt(b, e, r, data, ack);
    if t.error == Fine && t.ack == ACK_WAIT && tries > 1 {
      DataOnlyFromGoodRead(t.bus, e, r, t.data, t.ack, tries - 1);
    }
  }

  // Up to the ACK.
  lemma AckCalls(b: Bus, e: Env, bits: nat)
    ensures var sent := WriteBits(b, e, bits, 8);
            var turned := Turnaround(sent.bus, e, false);
            var got := ReadBits(turned.bus, e, 3);
            sent.error == Fine && turned.error == Fine && got.error == Fine ==>
              && got.bus.calls == AckCall(e, b.calls) + 1 && e.ok(AckCall(e, b.calls))
              && Pow2(3) > 0 && got.bits == Low(e.rx(AckCall(e, b.calls)), 3)
  {
    Pow2Of32();
    hide Pow2;
  }

  lemma AttemptData(b: Bus, e: Env, r: Request, data: Word, ack: nat)
    ensures var t := Attempt(b, e, r, data, ack);
            if r.read == 1 && t.error == Fine && t.ack == ACK_OK then ReadBy(e, b.calls, t.bus.calls, t.data)
            else t.data == data
  {
    hide EncodeRequest;
    hide WithParity;
    hide Parity;
    hide Pow2;
    Pow2Of32();
    var sent := WriteBits(b, e, EncodeRequest(r), 8);
    var turned := Turnaround(sent.bus, e, false);
    var got := ReadBits(turned.bus, e, 3);
    ReadPhaseData(got.bus, e, data);
    AckCalls(b, e, EncodeRequest(r));
    hide GoodWord;
    hide ReadPhase;
    hide SkipData;
    hide ErrorPhase;
    hide Turnaround;
    hide WriteData;
    hide RestoreHost;
    hide WriteBits;
    hide ReadBits;
    hide Low;
  }

  lemma TurnGrows(b: Bus, e: Env, host: bool)
    ensures b.calls <= Turnaround(b, e, host).bus.calls
  {
  }

  lemma {:induction false} IdleGrows(b: Bus, e: Env, remaining: nat)
    ensures b.calls <= WriteIdle(b, e, remaining).bus.calls
    decreases remaining
  {
    if remaining > 0 {
      var chunk := Chunk(remaining);
      IdleGrows(WriteBits(b, e, 0, chunk).bus, e, if chunk > remaining then 0 else remaining - chunk);
    }
  }

  lemma PhasesGrow(b: Bus, e: Env, dataBits: nat)
    ensures b.calls <= RestoreHost(b, e).bus.calls
    ensures b.calls <= WriteData(b, e, dataBits).bus.calls
  {
    TurnGrows(b, e, true);
    IdleGrows(Turnaround(b, e, true).bus, e, if e.idle == 0 then 1 else e.idle);
    IdleGrows(WriteBits(b, e, 2 * dataBits, FRAME_BITS).bus, e,
              if e.idle >= EMBEDDED_IDLE then e.idle - EMBEDDED_IDLE else 0);
    hide Turnaround;
    hide WriteIdle;
  }

  // ---------------------------------------------------------------- what is on the wire

  function Opening(e: Env, r: Request): seq<Event>
    requires Configured(e)
  {
    [Sent(EncodeRequest(r), 8), Select(false)] + (if e.turnaround == 1 then [] else [Received(e.turnaround - 1)])
        + [Received(3)]
  }

  predicate ValidAck(ack: nat) { ack == ACK_OK || ack == ACK_WAIT || ack == ACK_FAULT }

  function Back(e: Env): seq<Event> { [Received(e.turnaround), Select(true)] }

  function FullIdle(e: Env): seq<Event> { IdleEvents(IdleChunks(if e.idle == 0 then 1 else e.idle)) }

  function RestIdle(e: Env): seq<Event> {
    IdleEvents(IdleChunks(if e.idle >= EMBEDDED_IDLE then e.idle - EMBEDDED_IDLE else 0))
  }

  // What follows the acknowledgement.
  function Closing(e: Env, r: Request, data: Word, ack: nat): seq<Event> {
    if ValidAck(ack) && ack != ACK_OK && !e.dataPhase then Back(e) + FullIdle(e)
    else if !ValidAck(ack) || r.read == 1 then [Received(DATA_BITS)] + (Back(e) + FullIdle(e))
    else Back(e) + ([Sent(if ack == ACK_OK then 2 * WithParity(data) else 0, FRAME_BITS)] + RestIdle(e))
  }

  lemma TurnLog(b: Bus, e: Env)
    requires Configured(e)
    ensures b.host && Turnaround(b, e, false).error == Fine ==>
              Turnaround(b, e, false).bus.log
              == b.log + ([Select(false)] + if e.turnaround == 1 then [] else [Received(e.turnaround - 1)])
    ensures !b.host && Turnaround(b, e, true).error == Fine ==>
              Turnaround(b, e, true).bus.log == b.log + [Received(e.turnaround), Select(true)]
  {
  }

  lemma RestoreLog(b: Bus, e: Env)
    requires Configured(e) && !b.host
    ensures RestoreHost(b, e).error == Fine ==> RestoreHost(b, e).bus.log == b.log + (Back(e) + FullIdle(e))
  {
    TurnLog(b, e);
    TakeBack(b, e);
    hide Turnaround;
    hide WriteIdle;
    hide IdleChunks;
    var d := Turnaround(b, e, true);
    if d.error == Fine {
      WriteIdleClean(d.bus, e, if e.idle == 0 then 1 else e.idle);
    }
  }

  lemma SkipLog(b: Bus, e: Env)
    requires Configured(e) && !b.host
    ensures SkipData(b, e).error == Fine ==>
              SkipData(b, e).bus.log == b.log + ([Received(DATA_BITS)] + (Back(e) + FullIdle(e)))
  {
    hide FullIdle;
    RestoreLog(ReadBits(b, e, DATA_BITS).bus, e);
    hide RestoreHost;
  }

  // Taking the bus back and writing the data frame.
  lemma FrameLog(b: Bus, e: Env, dataBits: nat)
    requires Configured(e) && !b.host && Turnaround(b, e, true).error == Fine
    ensures var w := WriteData(Turnaround(b, e, true).bus, e, dataBits);
            w.error == Fine ==> w.bus.log == b.log + (Back(e) + ([Sent(2 * dataBits, FRAME_BITS)] + RestIdle(e)))
  {
    TurnLog(b, e);
    TakeBack(b, e);
    hide Turnaround;
    hide WriteIdle;
    hide IdleChunks;
    var d := WriteBits(Turnaround(b, e, true).bus, e, 2 * dataBits, FRAME_BITS);
    if d.error == Fine {
      WriteIdleClean(d.bus, e, if e.idle >= EMBEDDED_IDLE then e.idle - EMBEDDED_IDLE else 0);
    }
  }

  lemma ErrorPhaseLog(b: Bus, e: Env, r: Request, data: Word, ack: nat)
    requires Configured(e) && !b.host && (ack == ACK_WAIT || ack == ACK_FAULT)
    ensures ErrorPhase(b, e, r).error == Fine ==> ErrorPhase(b, e, r).bus.log == b.log + Closing(e, r, data, ack)
  {
    RestoreLog(b, e);
    SkipLog(b, e);
    if Turnaround(b, e, true).error == Fine {
      FrameLog(b, e, 0);
    }
    hide RestoreHost;
    hide SkipData;
    hide Turnaround;
    hide WriteData;
    hide FullIdle;
    hide RestIdle;
    hide WithParity;
  }

  // The phases ran to their end: no hardware call failed in them.
  predicate RanThrough(t: Tried) { t.error == Fine || t.error == InvalidResponse || t.error == InvalidCrc }

  lemma ReadPhaseLog(b: Bus, e: Env, data: Word)
    requires Configured(e) && !b.host
    ensures var t := ReadPhase(b, e, data);
            RanThrough(t) ==>
              && t.error != InvalidResponse
              && t.bus.log == b.log + ([Received(DATA_BITS)] + (Back(e) + FullIdle(e)))
  {
    var d := ReadBits(b, e, DATA_BITS);
    RestoreLog(d.bus, e);
    RestoreErrors(d.bus, e);
    hide RestoreHost;
    hide FullIdle;
    hide Parity;
  }

  lemma ClosingLog(b: Bus, e: Env, r: Request, data: Word, ack: nat)
    requires Configured(e) && !b.host
    ensures var t := AfterAck(b, e, r, data, ack);
            RanThrough(t) ==>
              && t.bus.log == b.log + Closing(e, r, data, ack)
              && (t.error == InvalidResponse <==> !ValidAck(ack))
              && (t.error == InvalidCrc ==> ack == ACK_OK && r.read == 1)
  {
    hide WithParity;
    PhaseErrors(b, e, r, WithParity(data));
    RestoreErrors(b, e);
    SkipLog(b, e);
    ReadPhaseLog(b, e, data);
    if ack == ACK_WAIT || ack == ACK_FAULT {
      ErrorPhaseLog(b, e, r, data, ack);
    }
    if Turnaround(b, e, true).error == Fine {
      FrameLog(b, e, WithParity(data));
    }
    hide SkipData;
    hide ErrorPhase;
    hide ReadPhase;
    hide Turnaround;
    hide WriteData;
    hide RestoreHost;
    hide FullIdle;
    hide RestIdle;
  }

  /**
   An attempt whose hardware calls succeed clocks, in order, the request, the turnaround and the ACK, and then
   what the ACK calls for: the 33 data bits and the way back after an OK read or an unknown ACK, the way back and
   the guarded word with its parity after an OK write, and on WAIT or FAULT a data phase of no meaning only if
   the host asked for one; then the idle bits. It reports the ACK, an unknown one as an invalid response, and a
   parity error only on an OK read.
   */
  lemma AttemptOnWire(b: Bus, e: Env, r: Request, data: Word, ack: nat)
    requires b.host && Configured(e)
    ensures var t := Attempt(b, e, r, data, ack);
            RanThrough(t) ==>
              && t.bus.log == b.log + Opening(e, r) + Closing(e, r, data, t.ack)
              && (t.error == InvalidResponse <==> !ValidAck(t.ack))
              && (t.error == InvalidCrc ==> t.ack == ACK_OK && r.read == 1)
  {
    hide EncodeRequest;
    hide Closing;
    var sent := WriteBits(b, e, EncodeRequest(r), 8);
    if sent.error == Fine {
      LetGo(sent.bus, e);
      TurnLog(sent.bus, e);
      hide Turnaround;
      var turned := Turnaround(sent.bus, e, false);
      if turned.error == Fine {
        var got := ReadBits(turned.bus, e, 3);
        if got.error == Fine {
          assert got.bus.log == b.log + Opening(e, r);
          AckIsReported(got.bus, e, r, data, got.bits);
          ClosingLog(got.bus, e, r, data, got.bits);
        }
        hide AfterAck;
        hide RestoreHost;
      }
    }
  }

  lemma AckIsReported(b: Bus, e: Env, r: Request, data: Word, ack: nat)
    ensures AfterAck(b, e, r, data, ack).ack == ack
  {
    hide SkipData;
    hide ErrorPhase;
    hide Turnaround;
    hide WriteData;
    hide RestoreHost;
    hide ReadBits;
    hide Parity;
    hide WithParity;
  }

  /** A target that answers WAIT for ever is asked for ever: no number of tries settles the transfer. */
  lemma {:induction false} WaitForever(b: Bus, e: Env, r: Request, data: Word, ack: nat, n: nat)
    requires b.host && Configured(e) && n > 0 && Pow2(3) > 0
    requires forall k: nat :: e.ok(k) && Low(e.rx(k), 3) == ACK_WAIT
    ensures !Settles(b, e, r, data, ack, n)
    decreases n
  {
    AttemptClean(b, e, r, data, ack);
    AttemptOnWire(b, e, r, data, ack);
    AckOnWire(b, e, r, data, ack);
    hide Attempt;
    hide Closing;
    hide Opening;
    hide Low;
    var t := Attempt(b, e, r, data, ack);
    if n > 1 {
      WaitForever(t.bus, e, r, t.data, t.ack, n - 1);
    }
  }

  // An attempt that runs to its end reports the three bits of its ACK.
  lemma AckOnWire(b: Bus, e: Env, r: Request, data: Word, ack: nat)
    requires Pow2(3) > 0
    ensures var t := Attempt(b, e, r, data, ack);
            RanThrough(t) ==> t.ack == Low(e.rx(AckCall(e, b.calls)), 3)
  {
    hide EncodeRequest;
    var sent := WriteBits(b, e, EncodeRequest(r), 8);
    var turned := Turnaround(sent.bus, e, false);
    var got := ReadBits(turned.bus, e, 3);
    AckCalls(b, e, EncodeRequest(r));
    AckIsReported(got.bus, e, r, data, got.bits);
    HardwareOrState(sent.bus, e);
    hide AfterAck;
    hide RestoreHost;
    hide Turnaround;
    hide Low;
  }

  lemma HardwareOrState(b: Bus, e: Env)
    ensures var d := Turnaround(b, e, false); d.error == Fine || d.error == Hardware || d.error == InvalidState
  {
  }

  // ---------------------------------------------------------------- the engine

  /** The engine's record and the protocol code that drives it, each step equal to its function above. */
  class Engine {
    const e: Env
    var host: bool
    var calls: nat
    ghost var refused: nat
    ghost var log: seq<Event>

    constructor (e: Env, host: bool)
      ensures this.e == e && State() == Bus(host, 0, 0, [])
    {
      this.e, this.host, calls, refused, log := e, host, 0, 0, [];
    }

    ghost function State(): Bus
      reads this
    {
      Bus(host, calls, refused, log)
    }

    method Hardware(ghost event: Event) returns (ok: bool)
      modifies `calls, `log
      ensures ok == e.ok(old(calls)) && calls == old(calls) + 1
      ensures log == if ok then old(log) + [event] else old(log)
    {
      ok := e.ok(calls);
      calls := calls + 1;
      if ok {
        log := log + [event];
      }
    }

    method SetHostOutput(on: bool) returns (error: Error)
      modifies this
      ensures var d := SetHost(old(State()), e, on); State() == d.bus && error == d.error
    {
      var ok := Hardware(Select(on));
      if ok {
        host := on;
        return Fine;
      }
      return Error.Hardware;
    }

    method Write(bits: nat, count: nat) returns (error: Error)
      modifies this
      ensures var d := WriteBits(old(State()), e, bits, count); State() == d.bus && error == d.error
    {
      if !host || count == 0 || count > 64 {
        refused := refused + 1;
        return InvalidState;
      }
      var ok := Hardware(Sent(bits, count));
      return if ok then Fine else Error.Hardware;
    }

    method Read(count: nat) returns (error: Error, bits: nat)
      modifies this
      ensures Did(State(), error, bits) == ReadBits(old(State()), e, count)
    {
      if host || count == 0 || count > 64 {
        refused := refused + 1;
        return InvalidState, 0;
      }
      Pow2Positive(count);
      var received := e.rx(calls);
      var ok := Hardware(Received(count));
      if !ok {
        return Error.Hardware, 0;
      }
      return Fine, Low(received, count);
    }

    method Turn(hostOutput: bool) returns (error: Error)
      modifies this
      ensures var d := Turnaround(old(State()), e, hostOutput); State() == d.bus && error == d.error
    {
      var ignored: nat;
      if hostOutput {
        if host {
          refused := refused + 1;
          return InvalidState;
        }
        error, ignored := Read(e.turnaround);
        if error != Fine {
          return;
        }
        error := SetHostOutput(true);
        return;
      }
      if !host {
        refused := refused + 1;
        return InvalidState;
      }
      error := SetHostOutput(false);
      if error != Fine || e.turnaround == 1 {
        return;
      }
      error, ignored := Read(if e.turnaround == 0 then 0 else e.turnaround - 1);
    }

    method WriteIdleCycles(idleCycles: nat) returns (error: Error)
      modifies this
      ensures var d := WriteIdle(old(State()), e, idleCycles); State() == d.bus && error == d.error
    {
      hide WriteBits;
      var remaining := idleCycles;
      while remaining > 0
        invariant WriteIdle(State(), e, remaining) == WriteIdle(old(State()), e, idleCycles)
      {
        var chunk := if remaining > 64 then 64 else remaining;
        if remaining == 65 {
          chunk := 63;
        } else if remaining == 1 {
          chunk := 2;
        }
        error := Write(0, chunk);
        if error != Fine {
          return;
        }
        remaining := if chunk > remaining then 0 else remaining - chunk;
      }
      return Fine;
    }

    method RestoreHostAndIdle() returns (error: Error)
      modifies this
      ensures var d := RestoreHost(old(State()), e); State() == d.bus && error == d.error
    {
      hide Turnaround;
      hide WriteIdle;
      error := Turn(true);
      if error != Fine {
        return;
      }
      error := WriteIdleCycles(if e.idle == 0 then 1 else e.idle);
    }

    method WriteDataPhaseAndIdle(dataBits: nat) returns (error: Error)
      modifies this
      ensures var d := WriteData(old(State()), e, dataBits); State() == d.bus && error == d.error
    {
      hide WriteBits;
      hide WriteIdle;
      error := Write(2 * dataBits, FRAME_BITS);
      if error != Fine {
        return;
      }
      error := WriteIdleCycles(if e.idle >= EMBEDDED_IDLE then e.idle - EMBEDDED_IDLE else 0);
    }

    method CompleteProtocolError() returns (error: Error)
      modifies this
      ensures var d := SkipData(old(State()), e); State() == d.bus && error == d.error
    {
      hide ReadBits;
      hide RestoreHost;
      var ignored: nat;
      error, ignored := Read(DATA_BITS);
      if error != Fine {
        var unused := RestoreHostAndIdle();
        return;
      }
      error := RestoreHostAndIdle();
    }

    method CompleteErrorDataPhase(r: Request) returns (error: Error)
      modifies this
      ensures var d := ErrorPhase(old(State()), e, r); State() == d.bus && error == d.error
    {
      hide SkipData;
      hide RestoreHost;
      hide Turnaround;
      hide WriteData;
      if !e.dataPhase {
        error := RestoreHostAndIdle();
      } else if r.read == 1 {
        error := CompleteProtocolError();
      } else {
        error := Turn(true);
        if error != Fine {
          return;
        }
        error := WriteDataPhaseAndIdle(0);
      }
    }

    method FinishRead(data: Word) returns (error: Error, value: Word)
      modifies this
      ensures Tried(State(), error, ACK_OK, value) == ReadPhase(old(State()), e, data)
    {
      hide ReadBits;
      hide RestoreHost;
      hide Parity;
      value := data;
      var bits: nat;
      error, bits := Read(DATA_BITS);
      if error != Fine {
        var unused := RestoreHostAndIdle();
        return;
      }
      error := RestoreHostAndIdle();
      if error != Fine {
        return;
      }
      var parity := Parity32(bits % BIT_32);
      if bits / BIT_32 % 2 != parity {
        return InvalidCrc, data;
      }
      return Fine, bits % BIT_32;
    }

    method FinishWrite(data: Word) returns (error: Error)
      modifies this
      ensures var d := Turnaround(old(State()), e, true);
              var w := if d.error != Fine then d else WriteData(d.bus, e, WithParity(data));
              State() == w.bus && error == w.error
    {
      hide Turnaround;
      hide WriteData;
      hide Parity;
      error := Turn(true);
      if error != Fine {
        return;
      }
      var parity := Parity32(data);
      error := WriteDataPhaseAndIdle(data + BIT_32 * parity);
    }

    method TransferAttempt(r: Request, data: Word, ack: nat) returns (error: Error, value: Word, got: nat)
      modifies this
      ensures Tried(State(), error, got, value) == Attempt(old(State()), e, r, data, ack)
    {
      hide EncodeRequest;
      hide WriteBits;
      hide Turnaround;
      hide ReadBits;
      hide RestoreHost;
      hide AfterAck;
      value, got := data, ack;
      error := Write(EncodeRequest(r), 8);
      if error != Fine {
        return;
      }
      error := Turn(false);
      if error != Fine {
        return;
      }
      var bits: nat;
      error, bits := Read(3);
      if error != Fine {
        var unused := RestoreHostAndIdle();
        return;
      }
      got := bits;
      error, value := Answer(r, data, bits);
    }

    // From the acknowledgement on.
    method Answer(r: Request, data: Word, ack: nat) returns (error: Error, value: Word)
      modifies this
      ensures Tried(State(), error, ack, value) == AfterAck(old(State()), e, r, data, ack)
    {
      hide SkipData;
      hide ErrorPhase;
      hide ReadPhase;
      hide Turnaround;
      hide WriteData;
      hide WithParity;
      value := data;
      if ack != ACK_OK && ack != ACK_WAIT && ack != ACK_FAULT {
        error := CompleteProtocolError();
        if error == Fine {
          error := InvalidResponse;
        }
      } else if ack != ACK_OK {
        error := CompleteErrorDataPhase(r);
      } else if r.read == 1 {
        error, value := FinishRead(data);
      } else {
        error := FinishWrite(data);
      }
    }

    /**
     The retry loop: with a valid request it is `Transfer` over `waitRetries + 1` tries, otherwise nothing
     happens. With the largest setting the loop counter wraps and there is no last try: the loop ends exactly
     if some attempt is not answered by WAIT, and then with that attempt.
     */
    method TransferWithRetries(r: Request, data: Word, waitRetries: Word, ack: nat)
      returns (error: Error, value: Word, got: nat)
      requires ValidRequest(r) && waitRetries == MAX_RETRIES ==> SettlesSome(State(), e, r, data, ack)
      modifies this
      ensures if !ValidRequest(r) then State() == old(State()) && error == InvalidArg && value == data && got == ack
              else if waitRetries < MAX_RETRIES
              then Tried(State(), error, got, value) == Transfer(old(State()), e, r, data, ack, waitRetries + 1)
              else
                && (error != Fine || got != ACK_WAIT)
                && forall n: nat :: n > 0 && Settles(old(State()), e, r, data, ack, n) ==>
                     Tried(State(), error, got, value) == Transfer(old(State()), e, r, data, ack, n)
    {
      hide Attempt;
      value, got := data, ack;
      if !ValidRequest(r) {
        return InvalidArg, value, got;
      }
      ghost var left: nat := waitRetries + 1;
      if waitRetries == MAX_RETRIES {
        left :| left > 0 && Settles(State(), e, r, data, ack, left);
      }
      ghost var end := Transfer(State(), e, r, data, ack, left);
      forall n: nat | n > 0 && Settles(State(), e, r, data, ack, n) && Settles(State(), e, r, data, ack, left)
        ensures Transfer(State(), e, r, data, ack, n) == end
      {
        SettlesOnce(State(), e, r, data, ack, n, left);
      }
      var attempt: nat := 0;
      while attempt <= waitRetries
        invariant waitRetries < MAX_RETRIES ==> attempt + left == waitRetries + 1
        invariant waitRetries == MAX_RETRIES ==>
                    attempt < WORD && left > 0 && (end.error != Fine || end.ack != ACK_WAIT)
        invariant if left > 0 then Transfer(State(), e, r, value, got, left) == end
                  else Tried(State(), Fine, got, value) == end
        decreases left
      {
        error, value, got := TransferAttempt(r, value, got);
        if error != Fine || got != ACK_WAIT {
          return;
        }
        left := left - 1;
        attempt := (attempt + 1) % WORD;
      }
      return Fine, value, got;
    }
  }
}
