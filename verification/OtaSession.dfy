/**
 The session record of `firmware/components/ota_manager/ota_manager.c`: what each call decides
 and does to the record while it holds the session mutex. Authorization, flash and partition
 answers are inputs. The steps that touch the mode word, the bus and the UART are in `OtaManager`.
 */
module OtaSession {
  import opened Bytes
  import opened Options
  import M = ModeWord

  /** The NULL client, or a network client with its connection and session id. */
  datatype Caller = Null | Net(connection: nat, session: nat)

  datatype Status =
    | Ok | InvalidArgument | InvalidState | InvalidSize | InvalidOffset | IncompleteImage | WriteFailed
    | ValidationFailed | ActivationFailed | InternalError | Unauthenticated | Busy

  datatype Phase = Inactive | Receiving | Committed

  datatype Chunk = Chunk(caller: Caller, offset: nat, data: seq<Byte>)

  /** A finished upload: who began it, the size declared, the room there was, and every write. */
  datatype Image = Image(beginner: Caller, declared: nat, room: nat, chunks: seq<Chunk>)

  /** `beginner`, `room`, `chunks` and `image` are history; the rest is the firmware's record. */
  datatype Session = Session(
    phase: Phase, expected: nat, written: nat, connection: nat, owner: nat, disconnected: bool,
    beginner: Caller, room: nat, chunks: seq<Chunk>, image: Option<Image>)

  const Fresh := Session(Inactive, 0, 0, 0, 0, false, Null, 0, [], None)

  datatype Call =
    | Begin(caller: Caller, size: nat)
    | Write(caller: Caller, offset: nat, data: seq<Byte>, present: bool)
    | Commit(caller: Caller)
    | Abort(caller: Caller)
    | Disconnect(caller: Caller)

  /** The answers of everything outside: `partition` is None when there is no usable update partition. */
  datatype Env = Env(authorized: bool, reauthorized: bool, partition: Option<nat>,
                     flashed: bool, aborted: bool, validated: bool, activated: bool)

  predicate Authorized(c: Caller, answer: bool) {
    c.Null? || (c.connection != 0 && c.session != 0 && answer)
  }

  predicate Owns(x: Session, c: Caller) {
    if c.Null? then x.connection == 0 && x.owner == 0 else x.connection == c.connection && x.owner == c.session
  }

  /** How a call goes on after its look at the record. */
  datatype Decision =
    | Finish(status: Status)
    | Prepare(caller: Caller, size: nat, room: nat)
    | Restore(event: M.Event, onRestored: Status, onFailure: Status)
    | Complete

  datatype Decided = Decided(session: Session, decision: Decision)

  function Answer(x: Session, status: Status): Decided {
    Decided(x, Finish(status))
  }

  function BeginPlan(x: Session, caller: Caller, size: nat, env: Env): Decided {
    if x.phase != Inactive then Answer(x, InvalidState)
    else if env.partition.None? || env.partition.value >= U32 then Answer(x, InternalError)
    else if size == 0 || size > env.partition.value then Answer(x, InvalidSize)
    else Decided(x, Prepare(caller, size, env.partition.value))
  }

  // The record once the bus is suspended, the caller still authorized and the flash opened.
  function Opened(x: Session, caller: Caller, size: nat, room: nat): Session {
    Fresh.(phase := Receiving, expected := size,
           connection := if caller.Null? then 0 else caller.connection,
           owner := if caller.Null? then 0 else caller.session,
           disconnected := x.disconnected, beginner := caller, room := room)
  }

  function WritePlan(x: Session, caller: Caller, offset: nat, data: seq<Byte>, present: bool, env: Env): Decided {
    if x.phase != Receiving then Answer(x, InvalidState)
    else if !present then Answer(x, InvalidArgument)
    else if offset != x.written then Answer(x, InvalidOffset)
    else if |data| == 0 || |data| > x.expected - x.written then Answer(x, InvalidSize)
    else if env.flashed then
      Answer(x.(written := x.written + |data|, chunks := x.chunks + [Chunk(caller, offset, data)]), Ok)
    else if !env.aborted then Answer(x, InternalError)
    else Decided(Fresh, Restore(M.OtaFailed, WriteFailed, InternalError))
  }

  function CommitPlan(x: Session, caller: Caller, env: Env): Decided {
    if x.phase != Receiving then Answer(x, InvalidState)
    else if x.written != x.expected then Answer(x, IncompleteImage)
    else if !env.validated then Decided(Fresh, Restore(M.OtaFailed, ValidationFailed, InternalError))
    else if !Authorized(caller, env.reauthorized) then
      Decided(Fresh, Restore(M.OtaFailed, Unauthenticated, Unauthenticated))
    else if !env.activated then Decided(Fresh, Restore(M.OtaFailed, ActivationFailed, InternalError))
    else
      Decided(x.(phase := Committed, expected := 0, written := 0,
                 image := Some(Image(x.beginner, x.expected, x.room, x.chunks))), Complete)
  }

  function AbortPlan(x: Session, env: Env): Decided {
    match x.phase
    case Inactive => Answer(x, Ok)
    case Committed => Answer(x, InvalidState)
    case Receiving =>
      if !env.aborted then Answer(x, InternalError)
      else Decided(Fresh, Restore(M.OtaAborted, Ok, InternalError))
  }

  function Plan(x: Session, call: Call, env: Env): Decided {
    if call.Disconnect? then
      if x.phase == Receiving && Owns(x, call.caller) then AbortPlan(x.(disconnected := true), env) else Answer(x, Ok)
    else if !Authorized(call.caller, env.authorized) then Answer(x, Unauthenticated)
    else if x.phase != Inactive && !Owns(x, call.caller) && !(call.Abort? && x.disconnected) then Answer(x, Busy)
    else match call
      case Begin(caller, size) => BeginPlan(x, caller, size, env)
      case Write(caller, offset, data, present) => WritePlan(x, caller, offset, data, present, env)
      case Commit(caller) => CommitPlan(x, caller, env)
      case Abort(_) => AbortPlan(x, env)
  }

  // ---------------------------------------------------------------- a call as one step

  /** Why a begin that passed its checks was refused after all. */
  datatype Refusal = BusBusy | BusFailed | UartFailed | LostAuthorization | FlashFailed

  function RefusalStatus(r: Refusal): Status {
    match r
    case BusBusy => InvalidState
    case BusFailed => InternalError
    case UartFailed => Busy
    case LostAuthorization => Unauthenticated
    case FlashFailed => InternalError
  }

  datatype World = World(env: Env, refusal: Option<Refusal>)

  datatype Served = Served(session: Session, status: Status)

  /** A whole call, as its caller sees it. */
  function Serve(x: Session, call: Call, w: World): Served {
    var d := Plan(x, call, w.env);
    match d.decision
    case Finish(status) => Served(d.session, status)
    case Prepare(caller, size, room) =>
      if w.refusal.Some? then Served(x, RefusalStatus(w.refusal.value))
      else Served(Opened(x, caller, size, room), Ok)
    case Restore(_, onRestored, _) => Served(d.session, onRestored)
    case Complete => Served(d.session, Ok)
  }

  // ---------------------------------------------------------------- what the record keeps

  function Content(chunks: seq<Chunk>): seq<Byte> {
    if chunks == [] then [] else Content(chunks[..|chunks| - 1]) + chunks[|chunks| - 1].data
  }

  // Each write starts where the writes before it end, and adds something.
  predicate Contiguous(chunks: seq<Chunk>) {
    forall i :: 0 <= i < |chunks| ==> chunks[i].offset == |Content(chunks[..i])| && chunks[i].data != []
  }

  predicate By(chunks: seq<Chunk>, caller: Caller) {
    forall i :: 0 <= i < |chunks| ==> chunks[i].caller == caller
  }

  predicate ImageOk(image: Image) {
    && 0 < image.declared <= image.room < U32
    && Contiguous(image.chunks) && By(image.chunks, image.beginner)
    && |Content(image.chunks)| == image.declared
  }

  predicate SessionInv(x: Session) {
    match x.phase
    case Inactive => x == Fresh
    case Receiving =>
      && 0 < x.expected <= x.room < U32
      && Authorized(x.beginner, true) && Owns(x, x.beginner)
      && Contiguous(x.chunks) && By(x.chunks, x.beginner)
      && x.written == |Content(x.chunks)| <= x.expected
      && x.image.None?
    case Committed => x.image.Some? && ImageOk(x.image.value)
  }

  // Among authorized callers, owning the session is being the one that began it.
  lemma OwnerIsBeginner(x: Session, caller: Caller)
    requires x.phase == Receiving && SessionInv(x)
    requires Authorized(caller, true) && Owns(x, caller)
    ensures caller == x.beginner
  {
  }

  lemma AppendChunk(chunks: seq<Chunk>, chunk: Chunk)
    requires Contiguous(chunks) && chunk.offset == |Content(chunks)| && chunk.data != []
    ensures Contiguous(chunks + [chunk]) && Content(chunks + [chunk]) == Content(chunks) + chunk.data
  {
    var all := chunks + [chunk];
    assert all[..|all| - 1] == chunks;
    forall i | 0 <= i < |all|
      ensures all[i].offset == |Content(all[..i])| && all[i].data != []
    {
      if i < |chunks| {
        assert all[..i] == chunks[..i];
      }
    }
  }

  // How a decision relates the record before and after it.
  predicate Consistent(x: Session, d: Decided) {
    match d.decision
    case Finish(_) => d.session.phase == x.phase
    case Prepare(caller, size, room) => d.session == x == Fresh && 0 < size <= room < U32 && Authorized(caller, true)
    case Restore(event, _, _) =>
      x.phase == Receiving && d.session == Fresh && (event.OtaFailed? || event.OtaAborted?)
    case Complete => x.phase == Receiving && d.session.phase == Committed
  }

  lemma WriteKeepsSession(x: Session, caller: Caller, offset: nat, data: seq<Byte>, present: bool, env: Env)
    requires SessionInv(x) && Authorized(caller, true) && (x.phase != Inactive ==> Owns(x, caller))
    ensures var d := WritePlan(x, caller, offset, data, present, env);
            SessionInv(d.session) && Consistent(x, d)
  {
    hide Content;
    hide Contiguous;
    if x.phase == Receiving {
      OwnerIsBeginner(x, caller);
      if offset == x.written && data != [] {
        AppendChunk(x.chunks, Chunk(caller, offset, data));
      }
    }
    FreshOk();
  }

  lemma FreshOk()
    ensures SessionInv(Fresh)
  {
  }

  lemma CommitKeepsSession(x: Session, caller: Caller, env: Env)
    requires SessionInv(x)
    ensures var d := CommitPlan(x, caller, env); SessionInv(d.session) && Consistent(x, d)
  {
  }

  /** Every call keeps the record's invariant; a committed record never changes again. */
  lemma PlanKeepsSession(x: Session, call: Call, env: Env)
    requires SessionInv(x)
    ensures SessionInv(Plan(x, call, env).session) && Consistent(x, Plan(x, call, env))
    ensures x.phase == Committed ==> Plan(x, call, env).session == x && Plan(x, call, env).decision.Finish?
    ensures match Plan(x, call, env).decision
            case Finish(status) => call.Commit? ==> status != Ok
            case Prepare(_, _, _) => call.Begin?
            case Restore(_, onRestored, onFailure) => call.Commit? ==> onRestored != Ok && onFailure != Ok
            case Complete => call.Commit?
  {
    hide Content;
    match call {
      case Write(caller, offset, data, present) =>
        if Authorized(caller, env.authorized) && (x.phase != Inactive ==> Owns(x, caller)) {
          WriteKeepsSession(x, caller, offset, data, present, env);
        }
      case Commit(caller) => CommitKeepsSession(x, caller, env);
      case _ =>
    }
  }

  lemma OpenedKeepsSession(caller: Caller, size: nat, room: nat)
    requires 0 < size <= room < U32 && Authorized(caller, true)
    ensures SessionInv(Opened(Fresh, caller, size, room)) && Opened(Fresh, caller, size, room).phase == Receiving
  {
  }
}
