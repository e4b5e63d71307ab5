/**
 How long is the DAP request at the start of a buffer: `airdap_dap_request_size` of
 `firmware/components/dap_protocol/dap_protocol.c`, as a function of the bytes available and as the
 loops that compute it.
 */
module DapRequest {
  import opened Bytes

  const PACKET_SIZE := 508
  const OTA_WRITE_HEADER := 7
  const OTA_MAX_WRITE := 496

  /** More bytes are needed, the request is this long, or it can never be one. */
  datatype Size = More | Framed(length: nat) | Malformed

  // Bits of a transfer request and of a sequence info byte.
  predicate IsRead(t: Byte) { (t / 2) % 2 == 1 }
  predicate IsMatchValue(t: Byte) { (t / 16) % 2 == 1 }
  predicate IsMatchMask(t: Byte) { (t / 32) % 2 == 1 }
  predicate HasTimestamp(t: Byte) { t / 128 == 1 }
  predicate CarriesWord(t: Byte) { !IsRead(t) || IsMatchValue(t) }

  predicate IsInput(info: Byte) { info / 128 == 1 }

  function SequenceBytes(info: Byte): nat {
    var bits := if info % 64 == 0 then 64 else info % 64;
    (bits + 7) / 8
  }

  function GetLe16(lo: Byte, hi: Byte): nat { var a: int, b: int := lo, hi; a + 256 * b }

  // ---------------------------------------------------------------- the size

  // A request of known length.
  function Fixed(s: seq<Byte>, length: nat): Size { if |s| >= length then Framed(length) else More }

  function Bounded(s: seq<Byte>, length: nat): Size {
    if length > PACKET_SIZE then Malformed else Fixed(s, length)
  }

  // `n` more transfers start at `length`.
  function TransferSize(s: seq<Byte>, length: nat, n: nat): Size
    decreases n
  {
    if n == 0 then Framed(length)
    else if |s| <= length then More
    else
      var next := length + (if CarriesWord(s[length]) then 5 else 1);
      if next > PACKET_SIZE then Malformed
      else if |s| < next then More
      else TransferSize(s, next, n - 1)
  }

  // `n` more sequences start at `length`; only output sequences are held against the packet size.
  function SequenceSize(s: seq<Byte>, length: nat, n: nat): Size
    decreases n
  {
    if n == 0 then Framed(length)
    else if |s| <= length then More
    else if IsInput(s[length]) then SequenceSize(s, length + 1, n - 1)
    else
      var next := length + 1 + SequenceBytes(s[length]);
      if next > PACKET_SIZE then Malformed
      else if |s| < next then More
      else SequenceSize(s, next, n - 1)
  }

  function RequestSize(s: seq<Byte>): Size {
    if s == [] then More
    else match s[0]
      case 0x00 => Fixed(s, 2)
      case 0x02 => Fixed(s, 2)
      case 0x13 => Fixed(s, 2)
      case 0x01 => Fixed(s, 3)
      case 0x09 => Fixed(s, 3)
      case 0x04 => Fixed(s, 6)
      case 0x08 => Fixed(s, 6)
      case 0x10 => Fixed(s, 7)
      case 0x11 => Fixed(s, 5)
      case 0x81 => Fixed(s, 5)
      case 0x82 =>
        if |s| < OTA_WRITE_HEADER then More
        else if GetLe16(s[5], s[6]) > OTA_MAX_WRITE then Malformed
        else Fixed(s, OTA_WRITE_HEADER + GetLe16(s[5], s[6]))
      case 0x12 =>
        if |s| < 2 then More
        else Bounded(s, 2 + ((if s[1] == 0 then 256 else s[1] as int) + 7) / 8)
      case 0x06 =>
        if |s| < 5 then More
        else Bounded(s, if IsRead(s[4]) then 5 else 5 + 4 * GetLe16(s[2], s[3]))
      case 0x05 => if |s| < 3 then More else TransferSize(s, 3, s[2])
      case 0x1D => if |s| < 2 then More else SequenceSize(s, 2, s[1])
      case _ => Framed(1)
  }

  // ---------------------------------------------------------------- stable under extension

  lemma {:induction false} TransferStable(s: seq<Byte>, t: seq<Byte>, length: nat, n: nat)
    requires s <= t
    ensures TransferSize(s, length, n) != More ==> TransferSize(t, length, n) == TransferSize(s, length, n)
    decreases n
  {
    if n > 0 && |s| > length {
      assert s[length] == t[length];
      TransferStable(s, t, length + (if CarriesWord(s[length]) then 5 else 1), n - 1);
    }
  }

  lemma {:induction false} SequenceStable(s: seq<Byte>, t: seq<Byte>, length: nat, n: nat)
    requires s <= t
    ensures SequenceSize(s, length, n) != More ==> SequenceSize(t, length, n) == SequenceSize(s, length, n)
    decreases n
  {
    if n > 0 && |s| > length {
      assert s[length] == t[length];
      SequenceStable(s, t, length + 1 + (if IsInput(s[length]) then 0 else SequenceBytes(s[length])), n - 1);
    }
  }

  /** Once a verdict is reached, more bytes do not change it. */
  lemma SizeStable(s: seq<Byte>, t: seq<Byte>)
    requires s <= t && RequestSize(s) != More
    ensures RequestSize(t) == RequestSize(s)
  {
    hide IsRead;
    hide GetLe16;
    assert s != [] && s[0] == t[0];
    if s[0] == 0x05 && |s| >= 3 {
      TransferStable(s, t, 3, s[2]);
    } else if s[0] == 0x1D && |s| >= 2 {
      SequenceStable(s, t, 2, s[1]);
    }
    hide TransferSize;
    hide SequenceSize;
  }

  lemma {:induction false} TransferExact(s: seq<Byte>, length: nat, n: nat, k: nat)
    requires length <= |s|
    ensures TransferSize(s, length, n).Framed? ==>
              var end := TransferSize(s, length, n).length;
              && length <= end <= |s| && (n > 0 ==> end > length)
              && TransferSize(s[..end], length, n) == Framed(end)
              && (k < end && (n > 0 || k >= length) ==>
                    TransferSize(s[..k], length, n) == (if n == 0 then Framed(length) else More))
    decreases n
  {
    if n > 0 && |s| > length {
      var next := length + (if CarriesWord(s[length]) then 5 else 1);
      if next <= |s| {
        TransferExact(s, next, n - 1, k);
      }
    }
  }

  lemma {:induction false} SequenceExact(s: seq<Byte>, length: nat, n: nat, k: nat)
    requires length <= |s|
    ensures SequenceSize(s, length, n).Framed? ==>
              var end := SequenceSize(s, length, n).length;
              && length <= end <= |s| && (n > 0 ==> end > length)
              && SequenceSize(s[..end], length, n) == Framed(end)
              && (k < end && (n > 0 || k >= length) ==>
                    SequenceSize(s[..k], length, n) == (if n == 0 then Framed(length) else More))
    decreases n
  {
    if n > 0 && |s| > length {
      var next := length + 1 + (if IsInput(s[length]) then 0 else SequenceBytes(s[length]));
      if next <= |s| {
        SequenceExact(s, next, n - 1, k);
      }
    }
  }

  /** A framed request is framed by its own bytes alone, and every strict prefix of it asks for more. */
  lemma SizeExact(s: seq<Byte>, k: nat)
    requires RequestSize(s).Framed?
    ensures var n := RequestSize(s).length;
            && 0 < n <= |s| && RequestSize(s[..n]) == Framed(n)
            && (k < n ==> RequestSize(s[..k]) == More)
  {
    hide IsRead;
    hide GetLe16;
    if s[0] == 0x05 {
      TransferExact(s, 3, s[2], k);
    } else if s[0] == 0x1D {
      SequenceExact(s, 2, s[1], k);
    }
    hide TransferSize;
    hide SequenceSize;
  }

  // ---------------------------------------------------------------- the loops

  method MeasureTransfer(data: array<Byte>, at: nat, available: nat) returns (size: Size)
    requires at + available <= data.Length && available >= 3
    ensures size == TransferSize(data[at..at + available], 3, data[at + 2])
  {
    ghost var s := data[at..at + available];
    var length, index := 3, 0;
    while index < data[at + 2]
      invariant 0 <= index <= data[at + 2] && 3 <= length <= available
      invariant TransferSize(s, length, data[at + 2] - index) == TransferSize(s, 3, data[at + 2])
    {
      if available <= length {
        return More;
      }
      var transfer := data[at + length];
      assert s[length] == transfer;
      length := length + 1;
      if CarriesWord(transfer) {
        length := length + 4;
      }
      if length > PACKET_SIZE {
        return Malformed;
      }
      if available < length {
        return More;
      }
      index := index + 1;
    }
    return Framed(length);
  }

  method MeasureSequence(data: array<Byte>, at: nat, available: nat) returns (size: Size)
    requires at + available <= data.Length && available >= 2
    ensures size == SequenceSize(data[at..at + available], 2, data[at + 1])
  {
    ghost var s := data[at..at + available];
    var length, index := 2, 0;
    while index < data[at + 1]
      invariant 0 <= index <= data[at + 1] && 2 <= length <= available
      invariant SequenceSize(s, length, data[at + 1] - index) == SequenceSize(s, 2, data[at + 1])
    {
      if available <= length {
        return More;
      }
      var info := data[at + length];
      assert s[length] == info;
      length := length + 1;
      if !IsInput(info) {
        length := length + SequenceBytes(info);
        if length > PACKET_SIZE {
          return Malformed;
        }
        if available < length {
          return More;
        }
      }
      index := index + 1;
    }
    return Framed(length);
  }

  /** `airdap_dap_request_size` on a region of a buffer. */
  method Measure(data: array<Byte>, at: nat, available: nat) returns (size: Size)
    requires at + available <= data.Length
    ensures size == RequestSize(data[at..at + available])
  {
    ghost var s := data[at..at + available];
    hide TransferSize;
    hide SequenceSize;
    if available == 0 {
      return More;
    }
    assert forall i :: 0 <= i < available ==> s[i] == data[at + i];
    if data[at] == 0x05 && available >= 3 {
      size := MeasureTransfer(data, at, available);
    } else if data[at] == 0x1D && available >= 2 {
      size := MeasureSequence(data, at, available);
    } else if data[at] in [0x05, 0x1D] {
      size := More;
    } else {
      size := MeasureOther(data, at, available);
    }
  }

  // The commands whose length is in their first bytes.
  method MeasureOther(data: array<Byte>, at: nat, available: nat) returns (size: Size)
    requires at + available <= data.Length && available > 0 && data[at] != 0x05 && data[at] != 0x1D
    ensures size == RequestSize(data[at..at + available])
  {
    ghost var s := data[at..at + available];
    assert forall i :: 0 <= i < available ==> s[i] == data[at + i];
    hide IsRead;
    hide GetLe16;
    var length: nat;
    match data[at] {
      case 0x00 => length := 2;
      case 0x02 => length := 2;
      case 0x13 => length := 2;
      case 0x01 => length := 3;
      case 0x09 => length := 3;
      case 0x04 => length := 6;
      case 0x08 => length := 6;
      case 0x10 => length := 7;
      case 0x11 => length := 5;
      case 0x81 => length := 5;
      case 0x82 =>
        if available < OTA_WRITE_HEADER {
          return More;
        }
        length := GetLe16(data[at + 5], data[at + 6]);
        if length > OTA_MAX_WRITE {
          return Malformed;
        }
        length := length + OTA_WRITE_HEADER;
      case 0x12 =>
        if available < 2 {
          return More;
        }
        length := 2 + ((if data[at + 1] == 0 then 256 else data[at + 1] as int) + 7) / 8;
        if length > PACKET_SIZE {
          return Malformed;
        }
      case 0x06 =>
        if available < 5 {
          return More;
        }
        length := 5;
        if !IsRead(data[at + 4]) {
          length := length + 4 * GetLe16(data[at + 2], data[at + 3]);
        }
        if length > PACKET_SIZE {
          return Malformed;
        }
      case _ => length := 1;
    }
    size := if available >= length then Framed(length) else More;
  }
}
