/**
 The network update path on top of `OtaSession`: the wire step of
 `firmware/components/network_ota/network_ota.c` and the chunk loop of `host/src/ota.rs`, with
 other clients calling the OTA manager between any two of the host's requests.
 */
module OtaUpload {
  import opened Bytes
  import opened Options
  import opened OtaSession

  const MAX_DATA := 4091
  const MAX_PAYLOAD := 4096

  const OTA_QUERY: Byte := 0x30
  const OTA_BEGIN: Byte := 0x31
  const OTA_WRITE: Byte := 0x32
  const OTA_COMMIT: Byte := 0x33
  const OTA_ABORT: Byte := 0x34
  const OTA_REBOOT: Byte := 0x35

  // ---------------------------------------------------------------- the wire step

  datatype FrameError = Truncated | UnsupportedType | InvalidFrame | FrameUnauthenticated | FrameBusy

  datatype Reply = Failed(error: FrameError) | Payload(bytes: seq<Byte>)

  datatype Dispatched = Dispatched(session: Session, reply: Reply)

  function StatusCode(s: Status): Byte {
    match s
    case Ok => 0
    case InvalidArgument => 1
    case InvalidState => 2
    case InvalidSize => 3
    case InvalidOffset => 4
    case IncompleteImage => 5
    case WriteFailed => 6
    case ValidationFailed => 7
    case ActivationFailed => 8
    case InternalError => 9
    case Unauthenticated => 10
    case Busy => 11
  }

  function Minimum(opcode: Byte): nat {
    if opcode == OTA_WRITE then 6 else if opcode == OTA_BEGIN then 5 else 1
  }

  /** The manager call a well-formed request stands for; QUERY and REBOOT only look. */
  function CallOf(caller: Caller, request: seq<Byte>): Option<Call>
    requires request != [] && |request| >= Minimum(request[0])
  {
    if request[0] == OTA_BEGIN then Some(Begin(caller, GetU32(request[1..5])))
    else if request[0] == OTA_WRITE then Some(Write(caller, GetU32(request[1..5]), request[5..], true))
    else if request[0] == OTA_COMMIT then Some(Commit(caller))
    else if request[0] == OTA_ABORT then Some(Abort(caller))
    else None
  }

  // A reply carries the opcode, the status and, when OK, the data.
  function ReplyWith(opcode: Byte, status: Status, data: seq<Byte>): Reply {
    if status == Unauthenticated then Failed(FrameUnauthenticated)
    else if status == Busy then Failed(FrameBusy)
    else Payload([opcode, StatusCode(status)] + (if status == Ok then data else []))
  }

  /**
   `airdap_network_ota_dispatch` with a large enough response buffer. `admitted` is the answer of
   the first authorization; `glance` is what QUERY or REBOOT answer.
   */
  function Dispatch(x: Session, connection: nat, id: nat, request: seq<Byte>, admitted: bool, w: World,
                    glance: (Status, seq<Byte>)): Dispatched
  {
    if !(connection != 0 && id != 0 && admitted) then Dispatched(x, Failed(FrameUnauthenticated))
    else if request == [] then Dispatched(x, Failed(Truncated))
    else if request[0] < OTA_QUERY || request[0] > OTA_REBOOT then Dispatched(x, Failed(UnsupportedType))
    else if |request| < Minimum(request[0]) then Dispatched(x, Failed(Truncated))
    else if (request[0] != OTA_WRITE && |request| != Minimum(request[0])) || |request| > 5 + MAX_DATA then
      Dispatched(x, Failed(InvalidFrame))
    else match CallOf(Net(connection, id), request)
      case None => Dispatched(x, ReplyWith(request[0], glance.0, glance.1))
      case Some(call) =>
        var served := Serve(x, call, w);
        Dispatched(served.session,
                   ReplyWith(request[0], served.status,
                             if call.Write? then PutU32(served.session.written % U32) else []))
  }

  // ---------------------------------------------------------------- the host

  /** A request the device executed as call `call` and answered with status OK and `data`. */
  predicate Accepted(r: Reply, opcode: Byte, data: seq<Byte>) {
    r.Payload? && |r.bytes| >= 2 && r.bytes[0] == opcode && r.bytes[1] == 0 && r.bytes[2..] == data
  }

  lemma AcceptedMeansOk(opcode: Byte, status: Status, data: seq<Byte>, expected: seq<Byte>)
    requires Accepted(ReplyWith(opcode, status, data), opcode, expected)
    ensures status == Ok && data == expected
  {
    var bytes := ReplyWith(opcode, status, data).bytes;
    assert StatusCode(status) == 0;
    assert bytes == [opcode, 0] + data;
    assert bytes[2..] == data;
  }

  /**
   One round trip: what other clients do first, whether the request arrives and its answer comes
   back, and how the device's surroundings answer.
   */
  datatype Round = Round(others: seq<(Call, World)>, delivered: bool, returned: bool, admitted: bool,
                         world: World, glance: (Status, seq<Byte>))

  // The manager serves other clients' calls.
  function Meanwhile(x: Session, others: seq<(Call, World)>): Session
    decreases |others|
  {
    if others == [] then x else Meanwhile(Serve(x, others[0].0, others[0].1).session, others[1..])
  }

  predicate Foreign(others: seq<(Call, World)>, us: Caller) {
    forall i :: 0 <= i < |others| ==> others[i].0.caller != us
  }

  /** The device end of the connection. */
  class Device {
    var session: Session

    constructor ()
      ensures session == Fresh
    {
      session := Fresh;
    }

    method Exchange(connection: nat, id: nat, request: seq<Byte>, round: Round) returns (reply: Option<Reply>)
      modifies this
      ensures var x := Meanwhile(old(session), round.others);
              var d := Dispatch(x, connection, id, request, round.admitted, round.world, round.glance);
              if !round.delivered then session == x && reply == None
              else session == d.session && reply == (if round.returned then Some(d.reply) else None)
    {
      session := Meanwhile(session, round.others);
      reply := None;
      if round.delivered {
        var d := Dispatch(session, connection, id, request, round.admitted, round.world, round.glance);
        session := d.session;
        if round.returned {
          reply := Some(d.reply);
        }
      }
    }
  }

  // ---------------------------------------------------------------- a foreign call leaves our session alone

  // An upload by `us` in progress: `done` bytes of `image` are in flash.
  predicate Uploading(x: Session, us: Caller, image: seq<Byte>, done: nat) {
    && SessionInv(x) && x.phase == Receiving && !x.disconnected
    && x.beginner == us && us.Net? && us.connection != 0 && us.session != 0
    && x.expected == |image| && done <= |image| && x.written == done && Content(x.chunks) == image[..done]
  }

  lemma ForeignCall(x: Session, us: Caller, call: Call, w: World)
    requires SessionInv(x) && x.phase == Receiving && !x.disconnected
    requires x.beginner == us && us.Net? && us.connection != 0 && us.session != 0 && call.caller != us
    ensures Serve(x, call, w).session == x
  {
    hide Contiguous;
    hide Content;
    if Authorized(call.caller, true) && Owns(x, call.caller) {
      OwnerIsBeginner(x, call.caller);
    }
    assert Owns(x, us);
  }

  lemma {:induction false} ForeignCalls(x: Session, us: Caller, others: seq<(Call, World)>)
    requires SessionInv(x) && x.phase == Receiving && !x.disconnected
    requires x.beginner == us && us.Net? && us.connection != 0 && us.session != 0 && Foreign(others, us)
    ensures Meanwhile(x, others) == x
    decreases |others|
  {
    if others != [] {
      ForeignCall(x, us, others[0].0, others[0].1);
      ForeignCalls(x, us, others[1..]);
    }
  }

  lemma ServeKeepsSession(x: Session, call: Call, w: World)
    requires SessionInv(x)
    ensures SessionInv(Serve(x, call, w).session)
  {
    PlanKeepsSession(x, call, w.env);
    hide Plan;
    var d := Plan(x, call, w.env).decision;
    if d.Prepare? {
      OpenedKeepsSession(d.caller, d.size, d.room);
    }
  }

  lemma {:induction false} MeanwhileKeepsSession(x: Session, others: seq<(Call, World)>)
    requires SessionInv(x)
    ensures SessionInv(Meanwhile(x, others))
    decreases |others|
  {
    if others != [] {
      ServeKeepsSession(x, others[0].0, others[0].1);
      MeanwhileKeepsSession(Serve(x, others[0].0, others[0].1).session, others[1..]);
    }
  }

  // ---------------------------------------------------------------- the three requests

  function BeginRequest(image: seq<Byte>): seq<Byte>
    requires |image| < U32
  {
    [OTA_BEGIN] + PutU32(|image|)
  }

  function ChunkAt(image: seq<Byte>, offset: nat): (chunk: seq<Byte>)
    requires offset < |image|
    ensures 0 < |chunk| <= MAX_DATA && offset + |chunk| <= |image|
    ensures chunk == image[offset..offset + |chunk|]
  {
    if |image| - offset <= MAX_DATA then image[offset..] else image[offset..offset + MAX_DATA]
  }

  /** Every write request fits one frame and the device's own limit. */
  function WriteRequest(image: seq<Byte>, offset: nat): (request: seq<Byte>)
    requires offset < |image| < U32
    ensures 6 <= |request| <= MAX_PAYLOAD && |request| <= 5 + MAX_DATA && request[0] == OTA_WRITE
  {
    [OTA_WRITE] + PutU32(offset) + ChunkAt(image, offset)
  }

  lemma BeginCall(caller: Caller, image: seq<Byte>)
    requires |image| < U32
    ensures CallOf(caller, BeginRequest(image)) == Some(Begin(caller, |image|))
  {
    assert BeginRequest(image)[1..5] == PutU32(|image|);
    U32RoundTrip(|image|);
  }

  lemma WriteCall(caller: Caller, image: seq<Byte>, offset: nat)
    requires offset < |image| < U32
    ensures CallOf(caller, WriteRequest(image, offset)) ==
            Some(Write(caller, offset, ChunkAt(image, offset), true))
  {
    var request := WriteRequest(image, offset);
    assert request[1..5] == PutU32(offset) && request[5..] == ChunkAt(image, offset);
    U32RoundTrip(offset);
  }

  // The dispatcher passes a well-formed request on to the manager.
  lemma DispatchServes(x: Session, connection: nat, id: nat, request: seq<Byte>, round: Round, call: Call)
    requires connection != 0 && id != 0 && round.admitted
    requires request != [] && OTA_QUERY <= request[0] <= OTA_REBOOT && |request| >= Minimum(request[0])
    requires (request[0] == OTA_WRITE || |request| == Minimum(request[0])) && |request| <= 5 + MAX_DATA
    requires CallOf(Net(connection, id), request) == Some(call)
    ensures var d := Dispatch(x, connection, id, request, round.admitted, round.world, round.glance);
            var served := Serve(x, call, round.world);
            && d.session == served.session
            && d.reply == ReplyWith(request[0], served.status,
                                    if call.Write? then PutU32(served.session.written % U32) else [])
  {
    hide Serve;
  }

  lemma AcceptedWasAdmitted(x: Session, connection: nat, id: nat, request: seq<Byte>, round: Round, data: seq<Byte>)
    requires request != []
    requires Accepted(Dispatch(x, connection, id, request, round.admitted, round.world, round.glance).reply,
                      request[0], data)
    ensures connection != 0 && id != 0 && round.admitted
  {
  }

  lemma BeginAccepted(x: Session, connection: nat, id: nat, image: seq<Byte>, round: Round)
    requires SessionInv(x) && |image| < U32
    ensures var us, d := Net(connection, id),
                Dispatch(x, connection, id, BeginRequest(image), round.admitted, round.world, round.glance);
            Accepted(d.reply, OTA_BEGIN, []) ==> Uploading(d.session, us, image, 0)
  {
    var us, request := Net(connection, id), BeginRequest(image);
    var d := Dispatch(x, connection, id, request, round.admitted, round.world, round.glance);
    if Accepted(d.reply, OTA_BEGIN, []) {
      AcceptedWasAdmitted(x, connection, id, request, round, []);
      BeginCall(us, image);
      DispatchServes(x, connection, id, request, round, Begin(us, |image|));
      hide Dispatch;
      var served := Serve(x, Begin(us, |image|), round.world);
      AcceptedMeansOk(OTA_BEGIN, served.status, [], []);
      hide ReplyWith;
      BeginServed(x, us, |image|, round.world);
      assert image[..0] == [];
    }
  }

  lemma BeginServed(x: Session, us: Caller, size: nat, w: World)
    requires SessionInv(x) && us.Net? && Serve(x, Begin(us, size), w).status == Ok
    ensures x == Fresh && us.connection != 0 && us.session != 0
    ensures exists room :: size <= room < U32 && Serve(x, Begin(us, size), w).session == Opened(Fresh, us, size, room)
    ensures SessionInv(Serve(x, Begin(us, size), w).session)
  {
    ServeKeepsSession(x, Begin(us, size), w);
    hide SessionInv;
    hide Opened;
    PlanKeepsSession(x, Begin(us, size), w.env);
    var d := Plan(x, Begin(us, size), w.env);
    assert d.decision.Prepare?;
    assert d.decision.caller == us && d.decision.size == size;
    var room := d.decision.room;
    assert size <= room < U32 && Serve(x, Begin(us, size), w).session == Opened(Fresh, us, size, room);
  }

  lemma WriteServed(x: Session, us: Caller, image: seq<Byte>, offset: nat, w: World)
    requires offset < |image| < U32 && Uploading(x, us, image, offset)
    ensures var chunk := ChunkAt(image, offset);
            var served := Serve(x, Write(us, offset, chunk, true), w);
            && (served.status == Ok ==> Uploading(served.session, us, image, offset + |chunk|))
            && (Good(w) ==> served.status == Ok)
  {
    var chunk := ChunkAt(image, offset);
    var call := Write(us, offset, chunk, true);
    ServeKeepsSession(x, call, w);
    AppendChunk(x.chunks, Chunk(us, offset, chunk));
    assert image[..offset] + chunk == image[..offset + |chunk|];
    assert Owns(x, us);
    hide Contiguous;
    hide Content;
    hide By;
    hide ChunkAt;
  }

  predicate Good(w: World) {
    w.env.authorized && w.env.reauthorized && w.env.flashed && w.env.validated && w.env.activated
  }

  lemma WriteAccepted(x: Session, connection: nat, id: nat, image: seq<Byte>, offset: nat, round: Round)
    requires offset < |image| < U32 && Uploading(x, Net(connection, id), image, offset)
    ensures var us, next := Net(connection, id), offset + |ChunkAt(image, offset)|;
            var d := Dispatch(x, connection, id, WriteRequest(image, offset), round.admitted, round.world,
                              round.glance);
            && (Accepted(d.reply, OTA_WRITE, PutU32(next)) ==> Uploading(d.session, us, image, next))
            && (round.admitted && Good(round.world) ==> Accepted(d.reply, OTA_WRITE, PutU32(next)))
  {
    hide Uploading;
    hide Dispatch;
    hide Serve;
    hide Accepted;
    hide ReplyWith;
    hide PutU32;
    hide ChunkAt;
    hide WriteRequest;
    hide CallOf;
    var us, chunk, request := Net(connection, id), ChunkAt(image, offset), WriteRequest(image, offset);
    var next, call := offset + |chunk|, Write(us, offset, chunk, true);
    UploadingIds(x, us, image, offset);
    WriteServed(x, us, image, offset, round.world);
    WriteCall(us, image, offset);
    if round.admitted {
      DispatchServes(x, connection, id, request, round, call);
    }
    if Accepted(Dispatch(x, connection, id, request, round.admitted, round.world, round.glance).reply, OTA_WRITE,
                PutU32(next)) {
      AcceptedWasAdmitted(x, connection, id, request, round, PutU32(next));
    }
    var served := Serve(x, call, round.world);
    if round.admitted {
      if served.status == Ok {
        UploadingIds(served.session, us, image, next);
        OkIsAccepted(OTA_WRITE, PutU32(next));
      }
      if Accepted(ReplyWith(OTA_WRITE, served.status, PutU32(served.session.written % U32)), OTA_WRITE, PutU32(next)) {
        AcceptedMeansOk(OTA_WRITE, served.status, PutU32(served.session.written % U32), PutU32(next));
      }
    }
  }

  lemma OkIsAccepted(opcode: Byte, data: seq<Byte>)
    ensures Accepted(ReplyWith(opcode, Ok, data), opcode, data)
  {
    var bytes := [opcode, StatusCode(Ok)] + data;
    assert bytes[2..] == data;
  }

  lemma UploadingIds(x: Session, us: Caller, image: seq<Byte>, done: nat)
    requires Uploading(x, us, image, done)
    ensures us.Net? && us.connection != 0 && us.session != 0 && x.written == done <= |image|
  {
  }

  // The finished upload is the host's image.
  predicate Uploaded(x: Session, us: Caller, image: seq<Byte>) {
    && x.phase == Committed && x.image.Some? && ImageOk(x.image.value)
    && x.image.value.beginner == us && Content(x.image.value.chunks) == image
  }

  lemma CommitServed(x: Session, us: Caller, image: seq<Byte>, w: World)
    requires Uploading(x, us, image, |image|)
    ensures var served := Serve(x, Commit(us), w);
            && (served.status == Ok ==> Uploaded(served.session, us, image))
            && (Good(w) ==> served.status == Ok)
  {
    ServeKeepsSession(x, Commit(us), w);
    assert image[..|image|] == image;
    hide Contiguous;
    hide Content;
    hide By;
  }

  lemma CommitAccepted(x: Session, connection: nat, id: nat, image: seq<Byte>, round: Round)
    requires Uploading(x, Net(connection, id), image, |image|)
    ensures var us := Net(connection, id);
            var d := Dispatch(x, connection, id, [OTA_COMMIT], round.admitted, round.world, round.glance);
            && (Accepted(d.reply, OTA_COMMIT, []) ==> Uploaded(d.session, us, image))
            && (round.admitted && Good(round.world) ==> Accepted(d.reply, OTA_COMMIT, []))
  {
    hide Uploading;
    hide Uploaded;
    var us, request := Net(connection, id), [OTA_COMMIT];
    var d := Dispatch(x, connection, id, request, round.admitted, round.world, round.glance);
    UploadingIds(x, us, image, |image|);
    CommitServed(x, us, image, round.world);
    assert CallOf(us, request) == Some(Commit(us));
    var served := Serve(x, Commit(us), round.world);
    if Accepted(d.reply, OTA_COMMIT, []) {
      AcceptedWasAdmitted(x, connection, id, request, round, []);
      DispatchServes(x, connection, id, request, round, Commit(us));
      AcceptedMeansOk(OTA_COMMIT, served.status, [], []);
    } else if round.admitted && Good(round.world) {
      DispatchServes(x, connection, id, request, round, Commit(us));
      OkIsAccepted(OTA_COMMIT, []);
    }
  }

  // ---------------------------------------------------------------- the upload

  const MAX_IMAGE := 8 * 1024 * 1024

  predicate Follows(s: seq<Byte>, i: nat) { i < |s| && 0x80 <= s[i] <= 0xBF }

  // The length of the UTF-8 character at the front, or 0 if there is none (section 4 of RFC 3629).
  function Utf8Width(s: seq<Byte>): nat
    requires s != []
  {
    var b := s[0];
    if b < 0x80 then 1
    else if 0xC2 <= b <= 0xDF && Follows(s, 1) then 2
    else if 0xE0 <= b <= 0xEF && Follows(s, 1) && Follows(s, 2)
            && (b == 0xE0 ==> s[1] >= 0xA0) && (b == 0xED ==> s[1] <= 0x9F) then 3
    else if 0xF0 <= b <= 0xF4 && Follows(s, 1) && Follows(s, 2) && Follows(s, 3)
            && (b == 0xF0 ==> s[1] >= 0x90) && (b == 0xF4 ==> s[1] <= 0x8F) then 4
    else 0
  }

  predicate IsUtf8(s: seq<Byte>) { s == [] || (Utf8Width(s) > 0 && IsUtf8(s[Utf8Width(s)..])) }

  // A field up to its first zero.
  function UpToZero(s: seq<Byte>): seq<Byte> { if s == [] || s[0] == 0 then [] else [s[0]] + UpToZero(s[1..]) }

  // The checks of `inspect`: size, image magic, application magic, chip, and a readable version.
  predicate Inspected(image: seq<Byte>) {
    && 80 <= |image| <= MAX_IMAGE
    && image[0] == 0xE9 && image[12..14] == [9, 0] && image[32..36] == [0x32, 0x54, 0xCD, 0xAB]
    && UpToZero(image[48..80]) != [] && IsUtf8(UpToZero(image[48..80]))
  }

  /** Nobody interferes, everything answers yes, and the partition has room. */
  ghost predicate Favourable(rounds: nat -> Round, size: nat) {
    forall k: nat ::
      var r := rounds(k);
      && r.others == [] && r.delivered && r.returned && r.admitted
      && Good(r.world) && r.world.refusal.None?
      && r.world.env.partition.Some? && size <= r.world.env.partition.value < U32
  }

  lemma BeginFavoured(connection: nat, id: nat, image: seq<Byte>, rounds: nat -> Round)
    requires connection != 0 && id != 0 && 0 < |image| < U32 && Favourable(rounds, |image|)
    ensures var r := rounds(0);
            && Accepted(Dispatch(Fresh, connection, id, BeginRequest(image), r.admitted, r.world, r.glance).reply,
                        OTA_BEGIN, [])
  {
    var us, r := Net(connection, id), rounds(0);
    BeginCall(us, image);
    DispatchServes(Fresh, connection, id, BeginRequest(image), r, Begin(us, |image|));
    OkIsAccepted(OTA_BEGIN, []);
  }

  /**
   The chunk loop of `network_upload` up to the commit. If it succeeds, then whatever the other
   clients, the network and the flash did, the committed image is exactly the host's image, written
   by this client alone. And for every image that fits it does succeed when nothing goes wrong.
   */
  method Upload(device: Device, connection: nat, id: nat, image: seq<Byte>, capacity: nat, rounds: nat -> Round)
    returns (ok: bool)
    requires SessionInv(device.session)
    requires forall k: nat :: Foreign(rounds(k).others, Net(connection, id))
    modifies device
    ensures ok ==> Inspected(image) && |image| <= capacity
    ensures ok ==> Uploaded(device.session, Net(connection, id), image)
    ensures Inspected(image) && |image| <= capacity && connection != 0 && id != 0 ==>
              old(device.session) == Fresh && Favourable(rounds, |image|) ==> ok
  {
    hide Dispatch;
    hide Accepted;
    hide Uploading;
    hide Uploaded;
    hide SessionInv;
    hide Inspected;
    hide Favourable;
    hide Foreign;
    hide Meanwhile;
    hide PutU32;
    hide ChunkAt;
    if !Inspected(image) || |image| > capacity {
      return false;
    }
    InspectedSize(image);
    ghost var us := Net(connection, id);
    ghost var good := connection != 0 && id != 0 && device.session == Fresh && Favourable(rounds, |image|);
    if good {
      BeginFavoured(connection, id, image, rounds);
      FavouredRound(rounds, |image|, 0, Fresh);
    }
    MeanwhileKeepsSession(device.session, rounds(0).others);
    BeginAccepted(Meanwhile(device.session, rounds(0).others), connection, id, image, rounds(0));
    var reply := device.Exchange(connection, id, BeginRequest(image), rounds(0));
    if reply.None? || !Accepted(reply.value, OTA_BEGIN, []) {
      return false;
    }
    var offset, k := 0, 1;
    var going := true;
    while going && offset < |image|
      invariant 0 <= offset <= |image| && k > 0
      invariant going ==> Uploading(device.session, us, image, offset)
      invariant good ==> going
      decreases |image| - offset + (if going then 1 else 0)
    {
      Undisturbed(device.session, us, image, offset, rounds(k).others);
      WriteAccepted(device.session, connection, id, image, offset, rounds(k));
      if good {
        FavouredRound(rounds, |image|, k, device.session);
      }
      reply := device.Exchange(connection, id, WriteRequest(image, offset), rounds(k));
      offset := offset + |ChunkAt(image, offset)|;
      if reply.None? || !Accepted(reply.value, OTA_WRITE, PutU32(offset)) {
        going := false;
      }
      k := k + 1;
    }
    if going {
      Undisturbed(device.session, us, image, offset, rounds(k).others);
      CommitAccepted(device.session, connection, id, image, rounds(k));
      if good {
        FavouredRound(rounds, |image|, k, device.session);
      }
      reply := device.Exchange(connection, id, [OTA_COMMIT], rounds(k));
      if reply.Some? && Accepted(reply.value, OTA_COMMIT, []) {
        return true;
      }
      k := k + 1;
    }
    reply := device.Exchange(connection, id, [OTA_ABORT], rounds(k));
    return false;
  }

  lemma InspectedSize(image: seq<Byte>)
    requires Inspected(image)
    ensures 0 < |image| < U32
  {
  }

  lemma FavouredRound(rounds: nat -> Round, size: nat, k: nat, x: Session)
    requires Favourable(rounds, size)
    ensures var r := rounds(k);
            r.delivered && r.returned && r.admitted && Good(r.world) && Meanwhile(x, r.others) == x
  {
  }

  lemma Undisturbed(x: Session, us: Caller, image: seq<Byte>, done: nat, others: seq<(Call, World)>)
    requires Uploading(x, us, image, done) && Foreign(others, us)
    ensures Meanwhile(x, others) == x
  {
    ForeignCalls(x, us, others);
  }
}
