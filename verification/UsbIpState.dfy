/**
 The shared `State` of `host/src/usbip.rs`: pending URBs, fragmented DAP responses and the channel
 to the peer, with `complete` and `flush`. First as functions on a value, then as the class whose
 methods change the fields in place, proved against those functions.
 */
module UsbIpState {
  import opened Bytes
  import opened Options

  const MAX_PENDING := 128
  const MAX_RESPONSES := 4

  datatype Direction = Out | In

  /** `id` is the identity of the shared URB object. */
  datatype Urb = Urb(id: nat, seqnum: nat, direction: Direction, ep: nat, size: nat)

  /** RET_SUBMIT, or RET_UNLINK with the URB it cancelled, if any. */
  datatype Packet =
    | RetSubmit(urb: Urb, status: int, size: nat, data: seq<Byte>)
    | RetUnlink(seqnum: nat, target: Option<Urb>)

  /** `sent` is everything ever handed to the channel; `room` is how many more packets it takes now. */
  datatype Value = Value(pending: seq<Urb>, responses: seq<seq<Byte>>, notification: seq<Byte>,
                         room: nat, sent: seq<Packet>)

  datatype Outcome = Outcome(value: Value, ok: bool)

  function Min(a: nat, b: nat): nat { if a < b then a else b }

  // ---------------------------------------------------------------- the operations as functions

  function FirstInput(pending: seq<Urb>, ep: nat): (found: Option<Urb>)
    ensures found.Some? ==> found.value in pending && found.value.ep == ep && found.value.direction == In
    ensures found.None? ==> forall u :: u in pending ==> !(u.ep == ep && u.direction == In)
  {
    if pending == [] then None
    else if pending[0].ep == ep && pending[0].direction == In then Some(pending[0])
    else FirstInput(pending[1..], ep)
  }

  predicate Present(pending: seq<Urb>, id: nat) {
    exists i :: 0 <= i < |pending| && pending[i].id == id
  }

  function Without(pending: seq<Urb>, id: nat): seq<Urb> {
    if pending == [] then []
    else if pending[0].id == id then pending[1..]
    else [pending[0]] + Without(pending[1..], id)
  }

  function Send(v: Value, p: Packet): Outcome {
    if v.room == 0 then Outcome(v, false) else Outcome(v.(room := v.room - 1, sent := v.sent + [p]), true)
  }

  function Reply(urb: Urb, data: seq<Byte>, status: int): Packet {
    RetSubmit(urb, status,
              if status != 0 then 0 else if urb.direction == In then |data| else urb.size,
              if status == 0 && urb.direction == In then data else [])
  }

  function Complete(v: Value, urb: Urb, data: seq<Byte>, status: int): Outcome {
    if !Present(v.pending, urb.id) then Outcome(v, true)
    else Send(v.(pending := Without(v.pending, urb.id)), Reply(urb, data, status))
  }

  lemma {:induction false} WithoutShrinks(pending: seq<Urb>, id: nat)
    ensures |Without(pending, id)| == |pending| - (if Present(pending, id) then 1 else 0)
  {
    if pending != [] && pending[0].id != id {
      WithoutShrinks(pending[1..], id);
      if Present(pending, id) {
        var i :| 0 <= i < |pending| && pending[i].id == id;
        assert pending[1..][i - 1].id == id;
      }
      if Present(pending[1..], id) {
        var i :| 0 <= i < |pending[1..]| && pending[1..][i].id == id;
        assert pending[i + 1].id == id;
      }
    } else if pending != [] {
      assert pending[0].id == id;
    }
  }

  // One turn of the loop: the oldest response meets the oldest EP1 input.
  function Turn(v: Value, urb: Urb): Outcome
    requires v.responses != []
  {
    var response := v.responses[0];
    var size := Min(|response|, urb.size);
    var d := Complete(v.(responses := v.responses[1..]), urb, response[..size], 0);
    if !d.ok || response[size..] == [] then d
    else Outcome(d.value.(responses := [response[size..]] + d.value.responses), true)
  }

  lemma TurnShrinks(v: Value, urb: Urb)
    requires v.responses != [] && urb in v.pending
    ensures |Turn(v, urb).value.pending| == |v.pending| - 1
  {
    var i :| 0 <= i < |v.pending| && v.pending[i] == urb;
    assert Present(v.pending, urb.id);
    WithoutShrinks(v.pending, urb.id);
  }

  function FlushResponses(v: Value): Outcome
    decreases |v.pending|
  {
    if v.responses == [] then Outcome(v, true)
    else match FirstInput(v.pending, 1)
      case None => Outcome(v, true)
      case Some(urb) =>
        TurnShrinks(v, urb);
        var d := Turn(v, urb);
        if !d.ok then d else FlushResponses(d.value)
  }

  // What is left of the responses when the oldest has met an input of `size` bytes.
  function Rest(responses: seq<seq<Byte>>, size: nat): seq<seq<Byte>>
    requires responses != []
  {
    if |responses[0]| <= size then responses[1..] else [responses[0][size..]] + responses[1..]
  }

  // How many inputs the responses can be delivered to: the packets a flush will want to send for them.
  function Turns(pending: seq<Urb>, responses: seq<seq<Byte>>): nat
    decreases |pending|
  {
    if responses == [] then 0
    else match FirstInput(pending, 1)
      case None => 0
      case Some(urb) =>
        PresentShrinks(pending, urb);
        1 + Turns(Without(pending, urb.id), Rest(responses, urb.size))
  }

  lemma PresentShrinks(pending: seq<Urb>, urb: Urb)
    requires urb in pending
    ensures Present(pending, urb.id) && |Without(pending, urb.id)| < |pending|
  {
    var i :| 0 <= i < |pending| && pending[i] == urb;
    WithoutShrinks(pending, urb.id);
  }

  /** Responses are flushed without loss exactly when the channel has room for one packet per delivery. */
  lemma {:induction false} FlushNeedsRoom(v: Value)
    ensures FlushResponses(v).ok <==> Turns(v.pending, v.responses) <= v.room
    decreases |v.pending|
  {
    if v.responses != [] && FirstInput(v.pending, 1).Some? {
      var urb := FirstInput(v.pending, 1).value;
      PresentShrinks(v.pending, urb);
      var t := Turn(v, urb);
      assert t.ok ==> t.value.pending == Without(v.pending, urb.id) && t.value.responses == Rest(v.responses, urb.size);
      if t.ok {
        FlushNeedsRoom(t.value);
      }
    }
  }

  function FlushNotification(v: Value): Outcome {
    var found := FirstInput(v.pending, 2);
    if v.notification == [] || found.None? then Outcome(v, true)
    else
      var size := Min(found.value.size, |v.notification|);
      Complete(v.(notification := v.notification[size..]), found.value, v.notification[..size], 0)
  }

  function Flush(v: Value): Outcome {
    var d := FlushResponses(v);
    if !d.ok then d else FlushNotification(d.value)
  }

  // ---------------------------------------------------------------- the object

  class State {
    var pending: seq<Urb>
    var responses: seq<seq<Byte>>
    var notification: seq<Byte>
    var room: nat
    var sent: seq<Packet>

    constructor (capacity: nat)
      ensures Current() == Value([], [], [], capacity, [])
    {
      pending, responses, notification, room, sent := [], [], [], capacity, [];
    }

    function Current(): Value
      reads this
    {
      Value(pending, responses, notification, room, sent)
    }

    method SendPacket(p: Packet) returns (ok: bool)
      modifies this
      ensures Outcome(Current(), ok) == Send(old(Current()), p)
    {
      ok := room > 0;
      if ok {
        room := room - 1;
        sent := sent + [p];
      }
    }

    method CompleteUrb(urb: Urb, data: seq<Byte>, status: int) returns (ok: bool)
      modifies this
      ensures Outcome(Current(), ok) == Complete(old(Current()), urb, data, status)
    {
      if !Present(pending, urb.id) {
        return true;
      }
      pending := Without(pending, urb.id);
      ok := SendPacket(Reply(urb, data, status));
    }

    // The loop of `flush`, then the notification.
    method FlushAll() returns (ok: bool)
      modifies this
      ensures Outcome(Current(), ok) == Flush(old(Current()))
    {
      var going := true;
      while going && responses != []
        invariant going ==> FlushResponses(Current()) == FlushResponses(old(Current()))
        invariant !going ==> Outcome(Current(), true) == FlushResponses(old(Current()))
        decreases |pending| + (if going then 1 else 0)
      {
        var found := FirstInput(pending, 1);
        if found.None? {
          going := false;
        } else {
          ghost var before := Current();
          var urb := found.value;
          TurnShrinks(before, urb);
          var response := responses[0];
          responses := responses[1..];
          var size := Min(|response|, urb.size);
          var sentOk := CompleteUrb(urb, response[..size], 0);
          if !sentOk {
            return false;
          }
          response := response[size..];
          if response != [] {
            responses := [response] + responses;
          }
        }
      }
      var found := FirstInput(pending, 2);
      if notification != [] && found.Some? {
        var urb := found.value;
        var size := Min(urb.size, |notification|);
        var data := notification[..size];
        notification := notification[size..];
        ok := CompleteUrb(urb, data, 0);
      } else {
        ok := true;
      }
    }
  }

  // ---------------------------------------------------------------- one reply per URB

  // The URB a packet is the terminal reply of.
  function Answers(p: Packet): Option<Urb> {
    match p
    case RetSubmit(urb, _, _, _) => Some(urb)
    case RetUnlink(_, target) => target
  }

  predicate Distinct(pending: seq<Urb>) {
    && (forall i, j :: 0 <= i < j < |pending| ==> pending[i].id != pending[j].id)
    && (forall i, j :: 0 <= i < j < |pending| ==> pending[i].seqnum != pending[j].seqnum)
  }

  predicate Once(pending: seq<Urb>, sent: seq<Packet>) {
    && (forall i, j :: 0 <= i < j < |sent| && Answers(sent[i]).Some? && Answers(sent[j]).Some? ==>
          Answers(sent[i]).value.id != Answers(sent[j]).value.id)
    && (forall i, k :: 0 <= i < |sent| && 0 <= k < |pending| && Answers(sent[i]).Some? ==>
          Answers(sent[i]).value.id != pending[k].id)
  }

  // An input reply never carries more than was asked for.
  predicate Fits(sent: seq<Packet>) {
    forall i :: 0 <= i < |sent| && sent[i].RetSubmit? ==>
      |sent[i].data| <= sent[i].urb.size && (sent[i].urb.direction == Out ==> sent[i].data == [])
  }

  // `n` is how many URBs there have been; their identities are below it.
  predicate Below(pending: seq<Urb>, sent: seq<Packet>, n: nat) {
    && (forall u :: u in pending ==> u.id < n)
    && (forall i :: 0 <= i < |sent| && Answers(sent[i]).Some? ==> Answers(sent[i]).value.id < n)
  }

  predicate Valid(v: Value, n: nat) {
    && Below(v.pending, v.sent, n)
    && Distinct(v.pending) && |v.pending| <= MAX_PENDING && Once(v.pending, v.sent) && Fits(v.sent)
    && (forall i :: 0 <= i < |v.responses| ==> v.responses[i] != [])
  }

  lemma {:induction false} WithoutMembers(pending: seq<Urb>, id: nat)
    requires Distinct(pending)
    ensures |Without(pending, id)| <= |pending|
    ensures forall u :: u in Without(pending, id) <==> u in pending && u.id != id
    decreases pending
  {
    if pending != [] {
      assert forall u :: u in pending <==> u == pending[0] || u in pending[1..];
      if pending[0].id != id {
        WithoutMembers(pending[1..], id);
      }
    }
  }

  lemma DistinctCons(first: Urb, all: seq<Urb>, rest: seq<Urb>)
    requires Distinct([first] + all) && Distinct(rest) && forall u :: u in rest ==> u in all
    ensures Distinct([first] + rest)
  {
    forall k | 0 <= k < |rest|
      ensures rest[k].id != first.id && rest[k].seqnum != first.seqnum
    {
      assert rest[k] in all;
      var i :| 0 <= i < |all| && all[i] == rest[k];
      assert ([first] + all)[0] == first && ([first] + all)[i + 1] == rest[k];
    }
  }

  lemma {:induction false} WithoutKeeps(pending: seq<Urb>, id: nat)
    requires Distinct(pending)
    ensures Distinct(Without(pending, id)) && |Without(pending, id)| <= |pending|
    ensures forall u :: u in Without(pending, id) <==> u in pending && u.id != id
    decreases pending
  {
    WithoutMembers(pending, id);
    if pending != [] && pending[0].id != id {
      WithoutKeeps(pending[1..], id);
      WithoutMembers(pending[1..], id);
      assert pending == [pending[0]] + pending[1..];
      DistinctCons(pending[0], pending[1..], Without(pending[1..], id));
      hide Distinct;
    }
  }

  lemma OnceShrinks(pending: seq<Urb>, sent: seq<Packet>, id: nat)
    requires Distinct(pending) && Once(pending, sent)
    ensures Once(Without(pending, id), sent)
  {
    WithoutKeeps(pending, id);
    var rest := Without(pending, id);
    forall i, k | 0 <= i < |sent| && 0 <= k < |rest| && Answers(sent[i]).Some?
      ensures Answers(sent[i]).value.id != rest[k].id
    {
      assert rest[k] in rest;
      var j :| 0 <= j < |pending| && pending[j] == rest[k];
    }
  }

  // Answering an URB that has just left the pending list.
  lemma OnceGrows(pending: seq<Urb>, sent: seq<Packet>, urb: Urb, p: Packet)
    requires Distinct(pending) && Once(pending, sent) && urb in pending
    requires Answers(p).Some? ==> Answers(p).value == urb
    ensures Once(Without(pending, urb.id), sent + [p])
  {
    OnceShrinks(pending, sent, urb.id);
    WithoutKeeps(pending, urb.id);
    var rest := Without(pending, urb.id);
    var k :| 0 <= k < |pending| && pending[k] == urb;
    forall i | 0 <= i < |rest|
      ensures rest[i].id != urb.id
    {
      assert rest[i] in rest;
    }
  }

  lemma CompleteKeeps(v: Value, n: nat, urb: Urb, data: seq<Byte>, status: int)
    requires Valid(v, n) && (Present(v.pending, urb.id) ==> urb in v.pending)
    requires status == 0 && urb.direction == In ==> |data| <= urb.size
    ensures Valid(Complete(v, urb, data, status).value, n)
  {
    if Present(v.pending, urb.id) {
      WithoutKeeps(v.pending, urb.id);
      OnceShrinks(v.pending, v.sent, urb.id);
      OnceGrows(v.pending, v.sent, urb, Reply(urb, data, status));
      hide Once;
      hide Distinct;
      hide Without;
    }
  }

  // ---------------------------------------------------------------- what the inputs spell

  function Piece(p: Packet, ep: nat): seq<Byte> {
    if p.RetSubmit? && p.urb.ep == ep && p.urb.direction == In then p.data else []
  }

  // The bytes delivered on an endpoint, in order.
  function Spelled(sent: seq<Packet>, ep: nat): seq<Byte> {
    if sent == [] then [] else Spelled(sent[..|sent| - 1], ep) + Piece(sent[|sent| - 1], ep)
  }

  function Flat(parts: seq<seq<Byte>>): seq<Byte> {
    if parts == [] then [] else parts[0] + Flat(parts[1..])
  }

  lemma SpelledAppends(sent: seq<Packet>, p: Packet, ep: nat)
    ensures Spelled(sent + [p], ep) == Spelled(sent, ep) + Piece(p, ep)
  {
    assert (sent + [p])[..|sent + [p]| - 1] == sent;
  }

  lemma {:induction false} FlatAppends(parts: seq<seq<Byte>>, last: seq<Byte>)
    ensures Flat(parts + [last]) == Flat(parts) + last
    decreases parts
  {
    if parts == [] {
      assert parts + [last] == [last] && [last][1..] == [];
    } else {
      assert (parts + [last])[1..] == parts[1..] + [last];
      FlatAppends(parts[1..], last);
    }
  }

  lemma CompleteSpells(v: Value, urb: Urb, data: seq<Byte>, status: int, ep: nat)
    ensures var d := Complete(v, urb, data, status);
            Spelled(d.value.sent, ep) ==
            Spelled(v.sent, ep) + (if d.value.sent != v.sent then Piece(Reply(urb, data, status), ep) else [])
  {
    SpelledAppends(v.sent, Reply(urb, data, status), ep);
    assert Spelled(v.sent, ep) + [] == Spelled(v.sent, ep);
    if Present(v.pending, urb.id) && v.room > 0 {
      assert |v.sent + [Reply(urb, data, status)]| == |v.sent| + 1;
    }
  }

  lemma CompleteFrame(v: Value, urb: Urb, data: seq<Byte>, status: int)
    ensures var d := Complete(v, urb, data, status);
            && d.value.responses == v.responses && d.value.notification == v.notification
            && (Present(v.pending, urb.id) && d.ok ==> d.value.sent == v.sent + [Reply(urb, data, status)])
            && (d.value.sent == v.sent || d.value.sent == v.sent + [Reply(urb, data, status)])
  {
  }

  lemma TurnKeeps(v: Value, n: nat, urb: Urb)
    requires Valid(v, n) && v.responses != [] && urb in v.pending && urb.ep == 1 && urb.direction == In
    ensures var d := Turn(v, urb);
            && Valid(d.value, n) && |d.value.responses| <= |v.responses|
            && (forall u :: u in d.value.pending ==> u in v.pending)
  {
    var response, v1 := v.responses[0], v.(responses := v.responses[1..]);
    var size := Min(|response|, urb.size);
    CompleteKeeps(v1, n, urb, response[..size], 0);
    CompleteFrame(v1, urb, response[..size], 0);
    WithoutKeeps(v.pending, urb.id);
    hide Distinct;
    hide Once;
    hide Without;
    hide Fits;
  }

  lemma RefusedSendsNothing(v: Value, urb: Urb, data: seq<Byte>, status: int)
    ensures !Complete(v, urb, data, status).ok ==> Complete(v, urb, data, status).value.sent == v.sent
  {
  }

  lemma CompletePending(v: Value, urb: Urb, data: seq<Byte>, status: int)
    requires Distinct(v.pending)
    ensures forall u :: u in Complete(v, urb, data, status).value.pending ==> u in v.pending
  {
    WithoutKeeps(v.pending, urb.id);
  }

  // A turn delivers a prefix of the oldest response and keeps the rest at the front.
  lemma TurnSpells(v: Value, urb: Urb)
    requires v.responses != [] && urb in v.pending && urb.ep == 1 && urb.direction == In
    ensures var d := Turn(v, urb);
            && (d.ok ==> Spelled(d.value.sent, 1) + Flat(d.value.responses) == Spelled(v.sent, 1) + Flat(v.responses))
            && (!d.ok && v.responses[0] != [] ==>
                  |Spelled(d.value.sent, 1)| + |Flat(d.value.responses)| < |Spelled(v.sent, 1)| + |Flat(v.responses)|)
            && (forall ep :: ep != 1 ==> Spelled(d.value.sent, ep) == Spelled(v.sent, ep))
  {
    var response, v1 := v.responses[0], v.(responses := v.responses[1..]);
    var size := Min(|response|, urb.size);
    var c := Complete(v1, urb, response[..size], 0);
    var i :| 0 <= i < |v.pending| && v.pending[i] == urb;
    assert Present(v.pending, urb.id);
    CompleteFrame(v1, urb, response[..size], 0);
    CompleteSpells(v1, urb, response[..size], 0, 1);
    forall ep | ep != 1
      ensures Spelled(c.value.sent, ep) == Spelled(v.sent, ep)
    {
      CompleteSpells(v1, urb, response[..size], 0, ep);
    }
    RefusedSendsNothing(v1, urb, response[..size], 0);
    hide Spelled;
    hide Complete;
    if c.ok {
      assert |c.value.sent| == |v.sent| + 1;
      FlatSplits(Spelled(v.sent, 1), response, size, v.responses[1..]);
      assert v.responses == [response] + v.responses[1..];
    }
  }

  lemma FlatSplits(before: seq<Byte>, response: seq<Byte>, size: nat, rest: seq<seq<Byte>>)
    requires size <= |response|
    ensures before + response[..size] + Flat([response[size..]] + rest) == before + Flat([response] + rest)
    ensures response[size..] == [] ==> before + response[..size] + Flat(rest) == before + Flat([response] + rest)
  {
    assert ([response[size..]] + rest)[1..] == rest && ([response] + rest)[1..] == rest;
    assert response == response[..size] + response[size..];
    assert before + response[..size] + (response[size..] + Flat(rest)) == before + (response + Flat(rest));
  }

  /**
   Flushing keeps every invariant, delivers nothing twice and, unless the channel refused a packet,
   leaves delivered bytes followed by queued bytes unchanged.
   */
  lemma {:induction false} FlushResponsesKeeps(v: Value, n: nat)
    requires Valid(v, n)
    ensures var d := FlushResponses(v);
            && Valid(d.value, n) && |d.value.responses| <= |v.responses|
            && (d.ok ==> Spelled(d.value.sent, 1) + Flat(d.value.responses) == Spelled(v.sent, 1) + Flat(v.responses))
            && (!d.ok ==>
                  |Spelled(d.value.sent, 1)| + |Flat(d.value.responses)| < |Spelled(v.sent, 1)| + |Flat(v.responses)|)
            && (forall ep :: ep != 1 ==> Spelled(d.value.sent, ep) == Spelled(v.sent, ep))
            && (forall u :: u in d.value.pending ==> u in v.pending)
            && (d.ok && d.value.responses != [] ==> FirstInput(d.value.pending, 1).None?)
    decreases |v.pending|
  {
    if v.responses != [] && FirstInput(v.pending, 1).Some? {
      var urb := FirstInput(v.pending, 1).value;
      TurnShrinks(v, urb);
      TurnKeeps(v, n, urb);
      TurnSpells(v, urb);
      hide Turn;
      hide Valid;
      var t := Turn(v, urb);
      if t.ok {
        FlushResponsesKeeps(t.value, n);
        assert |Spelled(t.value.sent, 1) + Flat(t.value.responses)| == |Spelled(v.sent, 1) + Flat(v.responses)|;
      }
    }
  }

  lemma FlushNotificationKeeps(v: Value, n: nat)
    requires Valid(v, n)
    ensures var d := FlushNotification(v);
            && Valid(d.value, n) && d.value.responses == v.responses
            && (forall ep :: ep != 2 ==> Spelled(d.value.sent, ep) == Spelled(v.sent, ep))
            && (forall u :: u in d.value.pending ==> u in v.pending)
  {
    var found := FirstInput(v.pending, 2);
    if v.notification != [] && found.Some? {
      var size := Min(found.value.size, |v.notification|);
      var v1, data := v.(notification := v.notification[size..]), v.notification[..size];
      CompleteKeeps(v1, n, found.value, data, 0);
      CompleteFrame(v1, found.value, data, 0);
      WithoutKeeps(v.pending, found.value.id);
      forall ep | ep != 2
        ensures Spelled(Complete(v1, found.value, data, 0).value.sent, ep) == Spelled(v.sent, ep)
      {
        CompleteSpells(v1, found.value, data, 0, ep);
      }
      hide Without;
      hide Valid;
    }
  }

  lemma FlushKeeps(v: Value, n: nat)
    requires Valid(v, n)
    ensures var d := Flush(v);
            && Valid(d.value, n) && |d.value.responses| <= |v.responses|
            && (FlushResponses(v).ok ==>
                  Spelled(d.value.sent, 1) + Flat(d.value.responses) == Spelled(v.sent, 1) + Flat(v.responses))
            && (!FlushResponses(v).ok ==>
                  |Spelled(d.value.sent, 1)| + |Flat(d.value.responses)| < |Spelled(v.sent, 1)| + |Flat(v.responses)|)
            && Spelled(d.value.sent, 3) == Spelled(v.sent, 3)
            && (forall u :: u in d.value.pending ==> u in v.pending)
  {
    FlushResponsesKeeps(v, n);
    FlushNotificationKeeps(FlushResponses(v).value, n);
    hide Valid;
    hide Spelled;
    hide FlushResponses;
    hide FlushNotification;
  }
}
