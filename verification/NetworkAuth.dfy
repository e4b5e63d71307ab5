/**
 The bookkeeping of `firmware/components/network_auth/network_auth.c`: the active credential, the
 one logical owner session, bound connections, pending handshakes and revocation, under one mutex,
 with any number of threads. One step per locked section, handler call, release of a connection, and
 look at `bound` outside the lock. TLS, hashing and storage answer as inputs; keys and fingerprints
 are opaque numbers. A connection that has been freed reads as the zeros it was cleared to.
 */
module NetworkAuth {
  import opened Options
  import opened SessionIds

  const MAX_PENDING := 2
  const IDLE_TIMEOUT := 60_000_000

  datatype Credential = Credential(generation: nat, key: nat, fingerprint: nat)

  /** `serial` numbers owner sessions, as history. */
  datatype OwnerSession = OwnerSession(id: nat, generation: nat, fingerprint: nat, token: nat, lastActivity: int,
                                       serial: nat)

  /**
   An authenticated connection; `id` and `serial` name the session it is bound to. `released` is history:
   a close has been through its locked section since the last bind.
   */
  datatype Connection =
    Connection(generation: nat, fingerprint: nat, bound: bool, id: nat, serial: nat, released: bool)

  datatype Result =
    | Ok | InvalidArgument | InvalidState | NoCredential | StorageFailed | Busy | AuthenticationFailed
    | Unauthenticated | Expired | Replay

  /** A revocation taken out of the lock: the session, and whether a handler was registered then. */
  datatype Revocation = NoRevocation | Revocation(id: nat, serial: nat, registered: bool)

  datatype Call =
    | Pair(key: nat, fingerprint: nat, usb: bool, stored: bool)
    | SetWindow(open: bool)
    | SetHandler
    | Accept
    | Bind(connection: nat, token: Option<nat>)
    | Validate(connection: nat, id: nat)
    | Close(connection: nat)
    | Clear(stored: bool)
    | Expire

  datatype Pc =
    | Idle
    | Done(result: Result)
    | Shaking(generation: nat, fingerprint: nat)
    | BindLock(connection: nat, token: Option<nat>)
    | CloseLock(connection: nat)
    | Freeing(connection: nat, revocation: Revocation)
    | Revoking(revocation: Revocation, result: Result)

  /**
   As history: `issued` sessions so far, `since` the first one that can still end when the handler is
   registered, `ended` those invalidated from then on, and `revoked` the handler calls made.
   */
  datatype Sys = Sys(
    credential: Option<Credential>, owner: Option<OwnerSession>, window: bool, pending: nat, bound: nat, next: nat,
    handler: bool, connections: map<nat, Connection>, threads: map<nat, Pc>,
    issued: nat, since: nat, ended: set<nat>, revoked: seq<nat>, shaking: set<nat>)

  // After initialization, with or without a stored credential.
  predicate Booted(s: Sys) {
    s == Sys(s.credential, None, false, 0, 0, 1, false, map[], map[], 0, 0, {}, [], {})
  }

  /**
   `now` is the clock, `token` the random token drawn, `handle` the handle of a new connection, `ok` a
   handshake's end.
   */
  datatype Action =
    | Start(thread: nat, call: Call, now: int)
    | Go(thread: nat, now: int, token: nat, handle: nat, ok: bool)

  function PcOf(s: Sys, t: nat): Pc { if t in s.threads then s.threads[t] else Idle }

  function Goto(s: Sys, t: nat, pc: Pc): Sys { s.(threads := s.threads[t := pc]) }

  // ---------------------------------------------------------------- the locked helpers

  predicate OwnerExpired(s: Sys, now: int) {
    s.owner.Some? && now >= s.owner.value.lastActivity && now - s.owner.value.lastActivity >= IDLE_TIMEOUT
  }

  // `invalidate_owner_locked`: the record is cleared and the revocation handed out.
  function Invalidated(s: Sys): Sys {
    if s.owner.None? then s
    else s.(owner := None, ended := if s.handler then s.ended + {s.owner.value.serial} else s.ended)
  }

  function RevocationOf(s: Sys): Revocation {
    if s.owner.None? then NoRevocation else Revocation(s.owner.value.id, s.owner.value.serial, s.handler)
  }

  function AfterExpiry(s: Sys, now: int): Sys { if OwnerExpired(s, now) then Invalidated(s) else s }

  function ExpiryRevocation(s: Sys, now: int): Revocation {
    if OwnerExpired(s, now) then RevocationOf(s) else NoRevocation
  }

  predicate Current(s: Sys, generation: nat, fingerprint: nat) {
    s.credential.Some? && s.credential.value.generation == generation && s.credential.value.fingerprint == fingerprint
  }

  // ---------------------------------------------------------------- the calls

  function NextGeneration(c: Option<Credential>): nat {
    if c.None? || (c.value.generation + 1) % WORD == 0 then 1 else (c.value.generation + 1) % WORD
  }

  function PairLocked(s: Sys, t: nat, key: nat, fingerprint: nat, usb: bool, stored: bool): Sys {
    if !usb && !s.window then Goto(s, t, Done(InvalidState))
    else if s.credential.Some? && s.credential.value.key == key then Goto(s, t, Done(Ok))
    else if !stored then Goto(s, t, Done(StorageFailed))
    else
      Goto(Invalidated(s).(credential := Some(Credential(NextGeneration(s.credential), key, fingerprint))), t,
           Revoking(RevocationOf(s), Ok))
  }

  function AcceptLocked(s: Sys, t: nat): Sys {
    if s.credential.None? then Goto(s, t, Done(NoCredential))
    else if s.pending >= MAX_PENDING then Goto(s, t, Done(Busy))
    else
      Goto(s.(pending := s.pending + 1, shaking := s.shaking + {t}), t,
           Shaking(s.credential.value.generation, s.credential.value.fingerprint))
  }

  // The end of a handshake; `handle` names the connection if there is to be one.
  function ShakeLocked(s: Sys, t: nat, generation: nat, fingerprint: nat, handle: nat, ok: bool): Sys {
    var s1 := s.(pending := if s.pending > 0 then s.pending - 1 else 0, shaking := s.shaking - {t});
    if !ok then Goto(s1, t, Done(AuthenticationFailed))
    else if !Current(s, generation, fingerprint) || handle in s.connections then Goto(s1, t, Done(Expired))
    else
      Goto(s1.(connections := s.connections[handle := Connection(generation, fingerprint, false, 0, 0, false)]), t,
           Done(Ok))
  }

  // Creating the logical owner for a connection without a token.
  function NewOwner(s: Sys, c: Connection, token: nat, now: int): Sys {
    s.(owner := Some(OwnerSession(s.next, c.generation, c.fingerprint, token, now, s.issued + 1)),
       next := if s.next + 1 == WORD then 1 else s.next + 1, issued := s.issued + 1)
  }

  function Joined(c: Connection, o: OwnerSession): Connection {
    c.(bound := true, id := o.id, serial := o.serial, released := false)
  }

  // Binding a connection to the owner session there is now.
  function Bound(s: Sys, k: nat, now: int): Sys
    requires k in s.connections && s.owner.Some?
  {
    s.(owner := Some(s.owner.value.(lastActivity := now)), bound := s.bound + 1,
       connections := s.connections[k := Joined(s.connections[k], s.owner.value)])
  }

  function BindLocked(s: Sys, t: nat, k: nat, token: Option<nat>, now: int, drawn: nat): Sys {
    var revocation := ExpiryRevocation(s, now);
    var s1 := AfterExpiry(s, now);
    if k !in s.connections then Goto(s1, t, Revoking(revocation, Expired))
    else
      var c := s.connections[k];
      if !Current(s1, c.generation, c.fingerprint) then Goto(s1, t, Revoking(revocation, Expired))
      else if s1.owner.Some? then
        if token != Some(s1.owner.value.token) then Goto(s1, t, Revoking(revocation, Busy))
        else Goto(Bound(s1, k, now), t, Revoking(revocation, Ok))
      else if token.Some? then Goto(s1, t, Revoking(revocation, Expired))
      else Goto(Bound(NewOwner(s1, c, drawn, now), k, now), t, Revoking(revocation, Ok))
  }

  predicate Validates(s: Sys, k: nat, id: nat) {
    && k in s.connections && s.connections[k].bound && s.owner.Some?
    && id == s.connections[k].id == s.owner.value.id
    && s.connections[k].generation == s.owner.value.generation
    && s.connections[k].fingerprint == s.owner.value.fingerprint
  }

  function ValidateLocked(s: Sys, t: nat, k: nat, id: nat, now: int): Sys {
    var s1 := AfterExpiry(s, now);
    if Validates(s1, k, id)
    then Goto(s1.(owner := Some(s1.owner.value.(lastActivity := now))), t, Revoking(ExpiryRevocation(s, now), Ok))
    else Goto(s1, t, Revoking(ExpiryRevocation(s, now), Expired))
  }

  function Released(connections: map<nat, Connection>, k: nat): map<nat, Connection> {
    if k in connections then connections[k := connections[k].(released := true)] else connections
  }

  // The locked section of a close, entered by one that has seen the connection bound.
  function CloseLocked(s: Sys, t: nat, k: nat): Sys {
    var s1 := s.(bound := if s.bound > 0 then s.bound - 1 else 0, connections := Released(s.connections, k));
    if s.owner.Some? && k in s.connections && s.owner.value.id == s.connections[k].id
    then Goto(Invalidated(s1), t, Freeing(k, RevocationOf(s)))
    else Goto(s1, t, Freeing(k, NoRevocation))
  }

  function Freed(s: Sys, t: nat, k: nat, r: Revocation): Sys {
    Goto(s.(connections := s.connections - {k}), t, Revoking(r, Ok))
  }

  function StartCall(s: Sys, t: nat, call: Call, now: int): Sys {
    match call
    case Pair(key, fingerprint, usb, stored) => PairLocked(s, t, key, fingerprint, usb, stored)
    case SetWindow(open) => Goto(s.(window := open), t, Done(Ok))
    case SetHandler =>
      if s.handler then Goto(s, t, Done(InvalidState))
      else Goto(s.(handler := true, since := if s.owner.Some? then s.issued else s.issued + 1), t, Done(Ok))
    case Accept => AcceptLocked(s, t)
    case Bind(k, token) =>
      if k !in s.connections then Goto(s, t, Done(Unauthenticated))
      else if s.connections[k].bound then Goto(s, t, Done(Replay))
      else Goto(s, t, BindLock(k, token))
    case Validate(k, id) =>
      if id == 0 then Goto(s, t, Done(InvalidArgument))
      else if k !in s.connections || !s.connections[k].bound then Goto(s, t, Done(Unauthenticated))
      else ValidateLocked(s, t, k, id, now)
    case Close(k) =>
      if k !in s.connections then s
      else Goto(s, t, if s.connections[k].bound then CloseLock(k) else Freeing(k, NoRevocation))
    case Clear(stored) =>
      if !stored then Goto(s.(window := false), t, Done(StorageFailed))
      else Goto(Invalidated(s).(window := false, credential := None), t, Revoking(RevocationOf(s), Ok))
    case Expire => Goto(AfterExpiry(s, now), t, Revoking(ExpiryRevocation(s, now), Ok))
  }

  // `invoke_revoke`
  function Revoke(s: Sys, t: nat, r: Revocation, result: Result): Sys {
    var s1 := Goto(s, t, Done(result));
    if r.Revocation? && r.registered && r.id != 0 then s1.(revoked := s.revoked + [r.serial]) else s1
  }

  function Step(s: Sys, a: Action): Sys {
    match a
    case Start(t, call, now) => if PcOf(s, t).Idle? || PcOf(s, t).Done? then StartCall(s, t, call, now) else s
    case Go(t, now, token, handle, ok) =>
      match PcOf(s, t)
      case Shaking(generation, fingerprint) => ShakeLocked(s, t, generation, fingerprint, handle, ok)
      case BindLock(k, wanted) => BindLocked(s, t, k, wanted, now, token)
      case CloseLock(k) => CloseLocked(s, t, k)
      case Freeing(k, r) => Freed(s, t, k, r)
      case Revoking(r, result) => Revoke(s, t, r, result)
      case _ => s
  }

  function Exec(s: Sys, run: seq<Action>): Sys
    decreases run
  {
    if run == [] then s else Exec(Step(s, run[0]), run[1..])
  }

  // ---------------------------------------------------------------- credentials and ids

  predicate ConnectionsOk(connections: map<nat, Connection>, issued: nat) {
    forall k :: k in connections && connections[k].bound ==>
      0 < connections[k].serial <= issued && connections[k].id == Id(connections[k].serial)
  }

  // The owner session is always one of the active credential.
  predicate OwnerOk(s: Sys) {
    s.owner.Some? ==>
      var o := s.owner.value;
      Current(s, o.generation, o.fingerprint) && 0 < o.serial == s.issued && o.id == Id(o.serial)
  }

  predicate OwnerInv(s: Sys) {
    s.next == Id(s.issued + 1) && OwnerOk(s) && ConnectionsOk(s.connections, s.issued)
  }

  lemma ExpiryKeeps(s: Sys, now: int)
    requires OwnerInv(s)
    ensures OwnerInv(Invalidated(s)) && OwnerInv(AfterExpiry(s, now))
    ensures AfterExpiry(s, now).connections == s.connections && AfterExpiry(s, now).credential == s.credential
  {
    hide Id;
    hide ConnectionsOk;
  }

  lemma NewOwnerKeeps(s: Sys, c: Connection, token: nat, now: int)
    requires OwnerInv(s) && Current(s, c.generation, c.fingerprint)
    ensures OwnerInv(NewOwner(s, c, token, now))
  {
    NextId(s.issued + 1);
    hide Id;
  }

  lemma BoundKeeps(s: Sys, k: nat, now: int)
    requires OwnerInv(s) && k in s.connections && s.owner.Some?
    ensures OwnerInv(Bound(s, k, now))
  {
    hide Id;
  }

  lemma GotoKeeps(s: Sys, t: nat, pc: Pc)
    requires OwnerInv(s)
    ensures OwnerInv(Goto(s, t, pc))
  {
    hide Id;
    hide ConnectionsOk;
  }

  lemma BindKeepsOwner(s: Sys, t: nat, k: nat, token: Option<nat>, now: int, drawn: nat)
    requires OwnerInv(s)
    ensures OwnerInv(BindLocked(s, t, k, token, now, drawn))
  {
    ExpiryKeeps(s, now);
    var s1 := AfterExpiry(s, now);
    hide AfterExpiry;
    if k in s.connections {
      var c := s.connections[k];
      if Current(s1, c.generation, c.fingerprint) {
        if s1.owner.Some? {
          BoundKeeps(s1, k, now);
        } else {
          NewOwnerKeeps(s1, c, drawn, now);
          BoundKeeps(NewOwner(s1, c, drawn, now), k, now);
        }
      }
    }
    hide Bound;
    hide NewOwner;
    forall s2: Sys, pc | OwnerInv(s2)
      ensures OwnerInv(Goto(s2, t, pc))
    {
      GotoKeeps(s2, t, pc);
    }
    hide OwnerInv;
  }

  lemma CloseKeepsOwner(s: Sys, t: nat, k: nat, r: Revocation)
    requires OwnerInv(s)
    ensures OwnerInv(CloseLocked(s, t, k)) && OwnerInv(Freed(s, t, k, r))
  {
    hide Id;
    assert ConnectionsOk(s.connections - {k}, s.issued);
    assert ConnectionsOk(Released(s.connections, k), s.issued);
    hide ConnectionsOk;
    hide Released;
  }

  lemma ValidateKeepsOwner(s: Sys, t: nat, k: nat, id: nat, now: int)
    requires OwnerInv(s)
    ensures OwnerInv(ValidateLocked(s, t, k, id, now))
  {
    ExpiryKeeps(s, now);
    hide AfterExpiry;
    hide Id;
    hide ConnectionsOk;
  }

  lemma PairKeepsOwner(s: Sys, t: nat, key: nat, fingerprint: nat, usb: bool, stored: bool)
    requires OwnerInv(s)
    ensures OwnerInv(PairLocked(s, t, key, fingerprint, usb, stored))
  {
    hide Id;
    hide ConnectionsOk;
  }

  lemma StartKeepsOwner(s: Sys, t: nat, call: Call, now: int)
    requires OwnerInv(s)
    ensures OwnerInv(StartCall(s, t, call, now))
  {
    hide Id;
    hide ConnectionsOk;
    hide PairLocked;
    hide ValidateLocked;
    ExpiryKeeps(s, now);
    hide AfterExpiry;
    match call {
      case Pair(key, fingerprint, usb, stored) => PairKeepsOwner(s, t, key, fingerprint, usb, stored);
      case Validate(k, id) => ValidateKeepsOwner(s, t, k, id, now);
      case _ =>
    }
  }

  lemma ShakeKeepsOwner(s: Sys, t: nat, generation: nat, fingerprint: nat, handle: nat, ok: bool)
    requires OwnerInv(s)
    ensures OwnerInv(ShakeLocked(s, t, generation, fingerprint, handle, ok))
  {
    hide Id;
    var more := s.connections[handle := Connection(generation, fingerprint, false, 0, 0, false)];
    assert ConnectionsOk(more, s.issued);
    hide ConnectionsOk;
  }

  lemma StepKeepsOwner(s: Sys, a: Action)
    requires OwnerInv(s)
    ensures OwnerInv(Step(s, a))
  {
    hide Id;
    hide ConnectionsOk;
    hide StartCall;
    hide ShakeLocked;
    hide BindLocked;
    hide CloseLocked;
    hide Freed;
    match a {
      case Start(t, call, now) => StartKeepsOwner(s, t, call, now);
      case Go(t, now, token, handle, ok) =>
        match PcOf(s, t) {
          case BindLock(k, wanted) => BindKeepsOwner(s, t, k, wanted, now, token);
          case CloseLock(k) => CloseKeepsOwner(s, t, k, NoRevocation);
          case Freeing(k, r) => CloseKeepsOwner(s, t, k, r);
          case Shaking(generation, fingerprint) => ShakeKeepsOwner(s, t, generation, fingerprint, handle, ok);
          case _ =>
        }
    }
  }

  // ---------------------------------------------------------------- revocation

  // The handler call a thread still owes.
  function Owed(pc: Pc): Option<nat> {
    if (pc.Revoking? || pc.Freeing?) && pc.revocation.Revocation? && pc.revocation.registered && pc.revocation.id != 0
    then Some(pc.revocation.serial) else None
  }

  // Outside the handler call, at most the owner session ends, and then its handler call is owed.
  predicate EndsOwing(s: Sys, s': Sys, owed: Option<nat>) {
    && s'.revoked == s.revoked
    && (|| (s'.ended == s.ended && owed.None?)
        || (s.owner.Some? && s'.ended == s.ended + {s.owner.value.serial} && owed == Some(s.owner.value.serial)))
    && (s'.owner.Some? ==> s'.owner.value.serial == s'.issued)
    && (s'.owner.Some? && s'.issued == s.issued ==> s.owner.Some? && s'.ended == s.ended)
    && s.issued <= s'.issued
  }

  ghost predicate Ends(s: Sys, s': Sys, t: nat) {
    (forall u: nat :: u != t ==> PcOf(s', u) == PcOf(s, u)) && EndsOwing(s, s', Owed(PcOf(s', t)))
  }

  lemma EndsByGoto(s: Sys, s1: Sys, t: nat, pc: Pc)
    requires s1.threads == s.threads && EndsOwing(s, s1, Owed(pc))
    ensures Ends(s, Goto(s1, t, pc), t)
  {
  }

  // Ending the owner session owes exactly its revocation.
  lemma InvalidatedOwes(s: Sys, result: Result)
    requires OwnerInv(s)
    ensures Invalidated(s).threads == s.threads
    ensures EndsOwing(s, Invalidated(s), Owed(Revoking(RevocationOf(s), result)))
  {
    if s.owner.Some? {
      NextId(s.owner.value.serial);
    }
    hide Id;
    hide ConnectionsOk;
  }

  lemma ExpiryOwes(s: Sys, now: int, result: Result)
    requires OwnerInv(s)
    ensures AfterExpiry(s, now).threads == s.threads
    ensures EndsOwing(s, AfterExpiry(s, now), Owed(Revoking(ExpiryRevocation(s, now), result)))
  {
    InvalidatedOwes(s, result);
    hide Id;
    hide ConnectionsOk;
    hide Invalidated;
  }

  lemma PairEnds(s: Sys, t: nat, key: nat, fingerprint: nat, usb: bool, stored: bool)
    requires OwnerInv(s)
    ensures Ends(s, PairLocked(s, t, key, fingerprint, usb, stored), t)
  {
    InvalidatedOwes(s, Ok);
    hide Invalidated;
    hide ConnectionsOk;
    hide Id;
    hide Ends;
    if (!usb && !s.window) || (s.credential.Some? && s.credential.value.key == key) || !stored {
      EndsByGoto(s, s, t, Done(InvalidState));
      EndsByGoto(s, s, t, Done(Ok));
      EndsByGoto(s, s, t, Done(StorageFailed));
    } else {
      EndsByGoto(s, Invalidated(s).(credential := Some(Credential(NextGeneration(s.credential), key, fingerprint))), t,
                 Revoking(RevocationOf(s), Ok));
    }
  }

  lemma ValidateEnds(s: Sys, t: nat, k: nat, id: nat, now: int)
    requires OwnerInv(s)
    ensures Ends(s, ValidateLocked(s, t, k, id, now), t)
  {
    ExpiryOwes(s, now, Ok);
    ExpiryOwes(s, now, Expired);
    hide AfterExpiry;
    hide ExpiryRevocation;
    hide ConnectionsOk;
    hide Id;
    hide Ends;
    var s1 := AfterExpiry(s, now);
    if Validates(s1, k, id) {
      EndsByGoto(s, s1.(owner := Some(s1.owner.value.(lastActivity := now))), t,
                 Revoking(ExpiryRevocation(s, now), Ok));
    } else {
      EndsByGoto(s, s1, t, Revoking(ExpiryRevocation(s, now), Expired));
    }
  }

  lemma CloseEnds(s: Sys, t: nat, k: nat)
    requires OwnerInv(s)
    ensures Ends(s, CloseLocked(s, t, k), t)
  {
    if s.owner.Some? {
      NextId(s.owner.value.serial);
    }
    hide Id;
    hide ConnectionsOk;
    hide Released;
  }

  lemma StartEnds(s: Sys, t: nat, call: Call, now: int)
    requires OwnerInv(s) && (PcOf(s, t).Idle? || PcOf(s, t).Done?)
    ensures Ends(s, StartCall(s, t, call, now), t)
  {
    hide Id;
    hide ConnectionsOk;
    hide PairLocked;
    hide ValidateLocked;
    InvalidatedOwes(s, Ok);
    ExpiryOwes(s, now, Ok);
    hide AfterExpiry;
    hide ExpiryRevocation;
    hide RevocationOf;
    hide Invalidated;
    hide Ends;
    match call {
      case Pair(key, fingerprint, usb, stored) => PairEnds(s, t, key, fingerprint, usb, stored);
      case SetWindow(open) => EndsByGoto(s, s.(window := open), t, Done(Ok));
      case SetHandler =>
        EndsByGoto(s, s, t, Done(InvalidState));
        EndsByGoto(s, s.(handler := true, since := if s.owner.Some? then s.issued else s.issued + 1), t, Done(Ok));
      case Accept => AcceptEnds(s, t);
      case Bind(k, token) =>
        EndsByGoto(s, s, t, Done(Unauthenticated));
        EndsByGoto(s, s, t, Done(Replay));
        EndsByGoto(s, s, t, BindLock(k, token));
      case Validate(k, id) =>
        EndsByGoto(s, s, t, Done(InvalidArgument));
        EndsByGoto(s, s, t, Done(Unauthenticated));
        ValidateEnds(s, t, k, id, now);
      case Close(k) =>
        NothingEnds(s, t);
        EndsByGoto(s, s, t, CloseLock(k));
        EndsByGoto(s, s, t, Freeing(k, NoRevocation));
      case Clear(stored) =>
        if stored {
          EndsByGoto(s, Invalidated(s).(window := false, credential := None), t, Revoking(RevocationOf(s), Ok));
        } else {
          EndsByGoto(s, s.(window := false), t, Done(StorageFailed));
        }
      case Expire => EndsByGoto(s, AfterExpiry(s, now), t, Revoking(ExpiryRevocation(s, now), Ok));
    }
  }

  lemma NothingEnds(s: Sys, t: nat)
    requires OwnerInv(s) && Owed(PcOf(s, t)).None?
    ensures Ends(s, s, t)
  {
    hide Id;
    hide ConnectionsOk;
  }

  lemma AcceptEnds(s: Sys, t: nat)
    requires OwnerInv(s)
    ensures Ends(s, AcceptLocked(s, t), t)
  {
    hide Id;
    hide ConnectionsOk;
    hide Ends;
    EndsByGoto(s, s, t, Done(NoCredential));
    EndsByGoto(s, s, t, Done(Busy));
    if s.credential.Some? {
      EndsByGoto(s, s.(pending := s.pending + 1, shaking := s.shaking + {t}), t,
                 Shaking(s.credential.value.generation, s.credential.value.fingerprint));
    }
  }

  lemma BoundOwes(s: Sys, s1: Sys, k: nat, now: int, owed: Option<nat>)
    requires EndsOwing(s, s1, owed) && k in s1.connections && s1.owner.Some?
    ensures EndsOwing(s, Bound(s1, k, now), owed)
  {
  }

  lemma BindEnds(s: Sys, t: nat, k: nat, token: Option<nat>, now: int, drawn: nat)
    requires OwnerInv(s)
    ensures Ends(s, BindLocked(s, t, k, token, now, drawn), t)
  {
    ExpiryOwes(s, now, Ok);
    ExpiryOwes(s, now, Busy);
    ExpiryOwes(s, now, Expired);
    ExpiryKeeps(s, now);
    hide AfterExpiry;
    hide ExpiryRevocation;
    hide ConnectionsOk;
    hide Id;
    hide Ends;
    var r, s1 := ExpiryRevocation(s, now), AfterExpiry(s, now);
    EndsByGoto(s, s1, t, Revoking(r, Expired));
    EndsByGoto(s, s1, t, Revoking(r, Busy));
    if k in s.connections {
      if s1.owner.Some? {
        BoundOwes(s, s1, k, now, Owed(Revoking(r, Ok)));
        EndsByGoto(s, Bound(s1, k, now), t, Revoking(r, Ok));
      } else {
        var s2 := NewOwner(s1, s.connections[k], drawn, now);
        BoundOwes(s, s2, k, now, Owed(Revoking(r, Ok)));
        EndsByGoto(s, Bound(s2, k, now), t, Revoking(r, Ok));
      }
    }
  }

  ghost predicate RevokeInv(s: Sys) {
    && (forall k :: k in s.ended ==> 0 < k <= s.issued)
    && (s.owner.Some? ==> s.owner.value.serial !in s.ended)
    && (forall i :: 0 <= i < |s.revoked| ==> s.revoked[i] in s.ended)
    && (forall i, j :: 0 <= i < j < |s.revoked| ==> s.revoked[i] != s.revoked[j])
    && (forall t: nat :: Owed(PcOf(s, t)).Some? ==>
          Owed(PcOf(s, t)).value in s.ended && Owed(PcOf(s, t)).value !in s.revoked)
    && (forall t: nat, u: nat :: t != u && Owed(PcOf(s, t)).Some? ==> Owed(PcOf(s, u)) != Owed(PcOf(s, t)))
    && (forall k :: k in s.ended && k !in s.revoked ==> exists t: nat :: Owed(PcOf(s, t)) == Some(k))
  }

  lemma EndsKeepsRevoke(s: Sys, s': Sys, t: nat)
    requires OwnerInv(s) && RevokeInv(s) && Ends(s, s', t)
    requires Owed(PcOf(s, t)).None?
    ensures RevokeInv(s')
  {
    hide Id;
    hide ConnectionsOk;
    hide Owed;
    forall k | k in s'.ended && k !in s'.revoked
      ensures exists u: nat :: Owed(PcOf(s', u)) == Some(k)
    {
      if k in s.ended {
        var u: nat :| Owed(PcOf(s, u)) == Some(k);
        assert Owed(PcOf(s', u)) == Some(k);
      } else {
        assert Owed(PcOf(s', t)) == Some(k);
      }
    }
    forall u: nat
      ensures Owed(PcOf(s', u)).Some? ==>
                Owed(PcOf(s', u)).value in s'.ended && Owed(PcOf(s', u)).value !in s'.revoked
    {
      if u != t {
        assert Owed(PcOf(s', u)) == Owed(PcOf(s, u));
      }
    }
    forall u: nat, v: nat | u != v && Owed(PcOf(s', u)).Some?
      ensures Owed(PcOf(s', v)) != Owed(PcOf(s', u))
    {
      if u != t {
        assert Owed(PcOf(s', u)) == Owed(PcOf(s, u));
      }
      if v != t {
        assert Owed(PcOf(s', v)) == Owed(PcOf(s, v));
      }
    }
  }

  lemma PaysKeepsRevoke(s: Sys, t: nat)
    requires RevokeInv(s) && PcOf(s, t).Revoking?
    ensures RevokeInv(Revoke(s, t, PcOf(s, t).revocation, PcOf(s, t).result))
  {
    var pc := PcOf(s, t);
    var s' := Revoke(s, t, pc.revocation, pc.result);
    assert s'.revoked == if Owed(pc).Some? then s.revoked + [Owed(pc).value] else s.revoked;
    assert s' == s.(threads := s'.threads, revoked := s'.revoked);
    assert Owed(PcOf(s', t)).None?;
    assert forall u: nat :: u != t ==> PcOf(s', u) == PcOf(s, u);
    hide Revoke;
    hide Owed;
    forall k | k in s'.ended && k !in s'.revoked
      ensures exists u: nat :: Owed(PcOf(s', u)) == Some(k)
    {
      assert forall x :: x in s.revoked ==> x in s'.revoked;
      var u: nat :| Owed(PcOf(s, u)) == Some(k);
      assert Owed(pc).Some? ==> Owed(pc).value in s'.revoked;
      assert u != t;
      assert Owed(PcOf(s', u)) == Some(k);
    }
    forall u: nat
      ensures Owed(PcOf(s', u)).Some? ==>
                Owed(PcOf(s', u)).value in s'.ended && Owed(PcOf(s', u)).value !in s'.revoked
    {
      if u != t && Owed(PcOf(s, u)).Some? {
        assert Owed(PcOf(s', u)) == Owed(PcOf(s, u));
        assert Owed(PcOf(s, t)) != Owed(PcOf(s, u));
      }
    }
  }

  lemma ShakeEnds(s: Sys, t: nat, generation: nat, fingerprint: nat, handle: nat, ok: bool)
    requires OwnerInv(s)
    ensures Ends(s, ShakeLocked(s, t, generation, fingerprint, handle, ok), t)
  {
    hide Id;
    hide ConnectionsOk;
  }

  lemma StepKeepsRevoke(s: Sys, a: Action)
    requires OwnerInv(s) && RevokeInv(s)
    ensures RevokeInv(Step(s, a))
  {
    var s', t, pc := Step(s, a), a.thread, PcOf(s, a.thread);
    hide StartCall;
    hide BindLocked;
    hide CloseLocked;
    hide Freed;
    hide ShakeLocked;
    hide OwnerInv;
    hide RevokeInv;
    hide Ends;
    if a.Start? {
      if pc.Idle? || pc.Done? {
        StartEnds(s, t, a.call, a.now);
        EndsKeepsRevoke(s, s', t);
      }
    } else if pc.Shaking? {
      ShakeEnds(s, t, pc.generation, pc.fingerprint, a.handle, a.ok);
      EndsKeepsRevoke(s, s', t);
    } else if pc.BindLock? {
      BindEnds(s, t, pc.connection, pc.token, a.now, a.token);
      EndsKeepsRevoke(s, s', t);
    } else if pc.CloseLock? {
      CloseEnds(s, t, pc.connection);
      EndsKeepsRevoke(s, s', t);
    } else if pc.Freeing? {
      FreeKeepsRevoke(s, t);
    } else if pc.Revoking? {
      PaysKeepsRevoke(s, t);
    }
  }

  // Freeing the connection hands what is owed on to the handler call.
  lemma FreeKeepsRevoke(s: Sys, t: nat)
    requires RevokeInv(s) && PcOf(s, t).Freeing?
    ensures RevokeInv(Freed(s, t, PcOf(s, t).connection, PcOf(s, t).revocation))
  {
    var s' := Freed(s, t, PcOf(s, t).connection, PcOf(s, t).revocation);
    forall u: nat
      ensures Owed(PcOf(s', u)) == Owed(PcOf(s, u))
    {
    }
    hide Owed;
    forall k | k in s'.ended && k !in s'.revoked
      ensures exists u: nat :: Owed(PcOf(s', u)) == Some(k)
    {
      var u: nat :| Owed(PcOf(s, u)) == Some(k);
      assert Owed(PcOf(s', u)) == Some(k);
    }
  }

  // ---------------------------------------------------------------- which sessions end

  // Registered with session `since` the first that can still end: all from there on have, but for a present owner.
  ghost predicate EndedAre(handler: bool, since: nat, issued: nat, owned: bool, ended: set<nat>) {
    && (forall k: nat :: k in ended <==> Over(handler, since, issued, owned, k))
    && (handler ==> 0 < since <= issued + 1 && (owned ==> since <= issued))
  }

  predicate Over(handler: bool, since: nat, issued: nat, owned: bool, k: nat) {
    handler && since <= k <= issued && !(owned && k == issued)
  }

  ghost predicate EndedOk(s: Sys) { EndedAre(s.handler, s.since, s.issued, s.owner.Some?, s.ended) }

  // The ways in which a step touches what `EndedOk` is about.
  predicate Untouched(s: Sys, s': Sys) {
    && s'.handler == s.handler && s'.since == s.since && s'.issued == s.issued
    && s'.owner.Some? == s.owner.Some? && s'.ended == s.ended
  }

  predicate Ending(s: Sys, s': Sys) { Untouched(s, s') || Untouched(Invalidated(s), s') }

  predicate Opening(s: Sys, s': Sys) {
    && s.owner.None? && s'.owner.Some? && s'.issued == s.issued + 1
    && s'.handler == s.handler && s'.since == s.since && s'.ended == s.ended
  }

  predicate Registering(s: Sys, s': Sys) {
    && !s.handler && s'.handler && s'.since == (if s.owner.Some? then s.issued else s.issued + 1)
    && s'.issued == s.issued && s'.owner.Some? == s.owner.Some? && s'.ended == s.ended
  }

  lemma UntouchedKeepsEnded(s: Sys, s': Sys)
    requires EndedOk(s) && Untouched(s, s')
    ensures EndedOk(s')
  {
  }

  lemma InvalidatedKeepsEnded(s: Sys)
    requires OwnerInv(s) && EndedOk(s)
    ensures EndedOk(Invalidated(s))
  {
    hide Id;
    hide ConnectionsOk;
  }

  lemma EndingKeepsEnded(s: Sys, s': Sys)
    requires OwnerInv(s) && EndedOk(s) && Ending(s, s')
    ensures EndedOk(s')
  {
    InvalidatedKeepsEnded(s);
    hide Invalidated;
    hide EndedOk;
    hide OwnerInv;
    if Untouched(s, s') {
      UntouchedKeepsEnded(s, s');
    } else {
      UntouchedKeepsEnded(Invalidated(s), s');
    }
  }

  lemma OpeningKeepsEnded(s: Sys, s': Sys)
    requires EndedOk(s) && Opening(s, s')
    ensures EndedOk(s')
  {
  }

  lemma RegisteringKeepsEnded(s: Sys, s': Sys)
    requires OwnerInv(s) && EndedOk(s) && Registering(s, s')
    ensures EndedOk(s')
  {
    hide Id;
    hide ConnectionsOk;
  }

  lemma StartTouches(s: Sys, t: nat, call: Call, now: int)
    ensures var s' := StartCall(s, t, call, now); Ending(s, s') || Registering(s, s')
  {
    hide RevocationOf;
    hide ExpiryRevocation;
    hide NextGeneration;
    hide OwnerExpired;
    hide Invalidated;
    if call.Validate? {
      ValidateTouches(s, t, call.connection, call.id, now);
      hide ValidateLocked;
    } else if call.Pair? {
      PairTouches(s, t, call.key, call.fingerprint, call.usb, call.stored);
      hide PairLocked;
    } else if call.Clear? || call.Expire? {
      EndTouches(s, t, call, now);
      hide StartCall;
    }
  }

  lemma EndTouches(s: Sys, t: nat, call: Call, now: int)
    requires call.Clear? || call.Expire?
    ensures Ending(s, StartCall(s, t, call, now))
  {
    hide RevocationOf;
    hide ExpiryRevocation;
    hide OwnerExpired;
  }

  lemma PairTouches(s: Sys, t: nat, key: nat, fingerprint: nat, usb: bool, stored: bool)
    ensures Ending(s, PairLocked(s, t, key, fingerprint, usb, stored))
  {
    hide RevocationOf;
    hide NextGeneration;
  }

  lemma ValidateTouches(s: Sys, t: nat, k: nat, id: nat, now: int)
    ensures Ending(s, ValidateLocked(s, t, k, id, now))
  {
    hide ExpiryRevocation;
    hide OwnerExpired;
  }

  lemma BindTouches(s: Sys, t: nat, k: nat, token: Option<nat>, now: int, drawn: nat)
    ensures var s', s1 := BindLocked(s, t, k, token, now, drawn), AfterExpiry(s, now);
            Ending(s, s1) && (Untouched(s1, s') || Opening(s1, s'))
  {
    hide ExpiryRevocation;
    hide OwnerExpired;
    hide Current;
    assert Ending(s, AfterExpiry(s, now));
    hide AfterExpiry;
  }

  lemma StepKeepsEnded(s: Sys, a: Action)
    requires OwnerInv(s) && EndedOk(s)
    ensures EndedOk(Step(s, a))
  {
    var s', t, pc := Step(s, a), a.thread, PcOf(s, a.thread);
    hide EndedOk;
    hide OwnerInv;
    if a.Start? {
      StartTouches(s, t, a.call, a.now);
      hide StartCall;
      if (pc.Idle? || pc.Done?) && !Ending(s, s') {
        RegisteringKeepsEnded(s, s');
      } else {
        EndingKeepsEnded(s, s');
      }
    } else if pc.BindLock? {
      var s1 := AfterExpiry(s, a.now);
      BindTouches(s, t, pc.connection, pc.token, a.now, a.token);
      hide BindLocked;
      hide AfterExpiry;
      EndingKeepsEnded(s, s1);
      if Untouched(s1, s') {
        UntouchedKeepsEnded(s1, s');
      } else {
        OpeningKeepsEnded(s1, s');
      }
    } else {
      OtherTouches(s, a);
      hide Step;
      EndingKeepsEnded(s, s');
    }
  }

  lemma OtherTouches(s: Sys, a: Action)
    requires a.Go? && !PcOf(s, a.thread).BindLock?
    ensures Ending(s, Step(s, a))
  {
    hide RevocationOf;
    hide Released;
    hide Current;
  }

  // ---------------------------------------------------------------- counting connections and handshakes

  // The connections the counter is meant to count: bound, and not taken out of the count by a close.
  function OpenSet(connections: map<nat, Connection>): set<nat> {
    set k | k in connections && connections[k].bound && !connections[k].released
  }

  predicate Counted(s: Sys) { s.bound == |OpenSet(s.connections)| }

  // What `session_bind` tests under the lock before it counts the connection.
  predicate Admits(s: Sys, k: nat, token: Option<nat>, now: int) {
    && k in s.connections && Current(s, s.connections[k].generation, s.connections[k].fingerprint)
    && if s.owner.Some? && !OwnerExpired(s, now) then token == Some(s.owner.value.token) else token.None?
  }

  // A bind is about to count a connection that is counted, because another has bound it since its look at `bound`.
  predicate BindsAgain(s: Sys, a: Action) {
    && a.Go? && PcOf(s, a.thread).BindLock?
    && Admits(s, PcOf(s, a.thread).connection, PcOf(s, a.thread).token, a.now)
    && PcOf(s, a.thread).connection in OpenSet(s.connections)
  }

  // A close is about to take a connection out of the count that is not in it, because another close has done so.
  predicate ClosesAgain(s: Sys, a: Action) {
    a.Go? && PcOf(s, a.thread).CloseLock? && PcOf(s, a.thread).connection !in OpenSet(s.connections) && s.bound > 0
  }

  // A close is about to free a counted connection, because a bind has counted it since its look at `bound`.
  predicate FreesCounted(s: Sys, a: Action) {
    a.Go? && PcOf(s, a.thread).Freeing? && PcOf(s, a.thread).connection in OpenSet(s.connections)
  }

  predicate Overtaken(s: Sys, a: Action) { BindsAgain(s, a) || ClosesAgain(s, a) || FreesCounted(s, a) }

  lemma BoundCountsOne(s: Sys, k: nat, now: int)
    requires k in s.connections && s.owner.Some?
    ensures var s' := Bound(s, k, now);
            s'.bound == s.bound + 1 && OpenSet(s'.connections) == OpenSet(s.connections) + {k}
  {
  }

  lemma ExpiryCounts(s: Sys, now: int)
    ensures var s' := AfterExpiry(s, now);
            && s'.connections == s.connections && s'.bound == s.bound && s'.credential == s.credential
            && s'.pending == s.pending && s'.shaking == s.shaking
            && s'.owner == if OwnerExpired(s, now) then None else s.owner
  {
  }

  lemma BindCounts(s: Sys, t: nat, k: nat, token: Option<nat>, now: int, drawn: nat)
    ensures var s' := BindLocked(s, t, k, token, now, drawn);
            if Admits(s, k, token, now) then
              s'.bound == s.bound + 1 && OpenSet(s'.connections) == OpenSet(s.connections) + {k}
            else s'.bound == s.bound && s'.connections == s.connections
  {
    ExpiryCounts(s, now);
    var s1 := AfterExpiry(s, now);
    hide AfterExpiry;
    hide ExpiryRevocation;
    hide OpenSet;
    hide OwnerExpired;
    if Admits(s, k, token, now) {
      if s1.owner.Some? {
        BoundCountsOne(s1, k, now);
      } else {
        BoundCountsOne(NewOwner(s1, s.connections[k], drawn, now), k, now);
      }
    }
    hide Bound;
  }

  lemma CloseCounts(s: Sys, t: nat, k: nat)
    ensures var s' := CloseLocked(s, t, k);
            && s'.bound == (if s.bound > 0 then s.bound - 1 else 0)
            && OpenSet(s'.connections) == OpenSet(s.connections) - {k}
  {
    hide RevocationOf;
  }

  lemma FreeCounts(s: Sys, t: nat, k: nat, r: Revocation)
    ensures var s' := Freed(s, t, k, r);
            s'.bound == s.bound && OpenSet(s'.connections) == OpenSet(s.connections) - {k}
  {
  }

  lemma ShakeCounts(s: Sys, t: nat, generation: nat, fingerprint: nat, handle: nat, ok: bool)
    ensures var s' := ShakeLocked(s, t, generation, fingerprint, handle, ok);
            s'.bound == s.bound && OpenSet(s'.connections) == OpenSet(s.connections)
  {
  }

  lemma StartCounts(s: Sys, t: nat, call: Call, now: int)
    ensures var s' := StartCall(s, t, call, now); s'.connections == s.connections && s'.bound == s.bound
  {
    ExpiryCounts(s, now);
    hide AfterExpiry;
    hide ExpiryRevocation;
    hide Validates;
    hide RevocationOf;
  }

  // A set without or with one more element has the size one expects exactly when the element was there or not.
  lemma OneElement(open: set<nat>, k: nat)
    ensures |open + {k}| == |open| + (if k in open then 0 else 1)
    ensures |open - {k}| == |open| - (if k in open then 1 else 0)
  {
    if k in open {
      assert open + {k} == open;
    } else {
      assert open - {k} == open;
    }
  }

  predicate Using(pc: Pc) { pc.BindLock? || pc.CloseLock? || pc.Freeing? }

  lemma UseCounts(s: Sys, a: Action)
    requires Counted(s) && a.Go? && Using(PcOf(s, a.thread))
    ensures Counted(Step(s, a)) <==> !Overtaken(s, a)
  {
    hide BindLocked;
    hide CloseLocked;
    hide Freed;
    hide Admits;
    hide OpenSet;
    var t, pc := a.thread, PcOf(s, a.thread);
    OneElement(OpenSet(s.connections), pc.connection);
    if pc.BindLock? {
      BindCounts(s, t, pc.connection, pc.token, a.now, a.token);
    } else if pc.CloseLock? {
      CloseCounts(s, t, pc.connection);
    } else {
      FreeCounts(s, t, pc.connection, pc.revocation);
    }
  }

  lemma StepCounts(s: Sys, a: Action)
    requires Counted(s)
    ensures Counted(Step(s, a)) <==> !Overtaken(s, a)
  {
    hide StartCall;
    hide ShakeLocked;
    hide BindLocked;
    hide CloseLocked;
    hide Freed;
    hide Admits;
    hide OpenSet;
    var t, pc := a.thread, PcOf(s, a.thread);
    if !a.Start? && Using(pc) {
      UseCounts(s, a);
    } else if a.Start? {
      StartCounts(s, t, a.call, a.now);
    } else if pc.Shaking? {
      ShakeCounts(s, t, pc.generation, pc.fingerprint, a.handle, a.ok);
    }
  }

  predicate CountedAlong(s: Sys, run: seq<Action>)
    decreases run
  {
    Counted(s) && (run == [] || CountedAlong(Step(s, run[0]), run[1..]))
  }

  predicate NeverOvertaken(s: Sys, run: seq<Action>)
    decreases run
  {
    run == [] || (!Overtaken(s, run[0]) && NeverOvertaken(Step(s, run[0]), run[1..]))
  }

  lemma {:induction false} CountedExactly(s: Sys, run: seq<Action>)
    requires Counted(s)
    ensures CountedAlong(s, run) <==> NeverOvertaken(s, run)
    ensures NeverOvertaken(s, run) ==> Counted(Exec(s, run))
    decreases run
  {
    if run != [] {
      StepCounts(s, run[0]);
      hide Step;
      hide Overtaken;
      hide Counted;
      if !Overtaken(s, run[0]) {
        CountedExactly(Step(s, run[0]), run[1..]);
      }
    }
  }

  // ---------------------------------------------------------------- one call at a time

  // One call at a time on each connection.
  ghost predicate Serial(s: Sys, a: Action) {
    a.Start? && (a.call.Bind? || a.call.Validate? || a.call.Close?) ==>
      forall t: nat :: Using(PcOf(s, t)) ==> PcOf(s, t).connection != a.call.connection
  }

  ghost predicate SerialRun(s: Sys, run: seq<Action>)
    decreases run
  {
    run == [] || (Serial(s, run[0]) && SerialRun(Step(s, run[0]), run[1..]))
  }

  // What a call knows of the connection it is working on.
  predicate UseOk(connections: map<nat, Connection>, pc: Pc) {
    && (Using(pc) ==> pc.connection in connections)
    && (pc.BindLock? ==> !connections[pc.connection].bound)
    && (pc.CloseLock? ==> connections[pc.connection].bound && !connections[pc.connection].released)
    && (pc.Freeing? ==> !connections[pc.connection].bound || connections[pc.connection].released)
  }

  ghost predicate Closing(s: Sys, k: nat) { exists t: nat :: PcOf(s, t).Freeing? && PcOf(s, t).connection == k }

  ghost predicate UseInv(s: Sys) {
    && (forall t: nat :: UseOk(s.connections, PcOf(s, t)))
    && (forall t: nat, u: nat :: t != u && Using(PcOf(s, t)) && Using(PcOf(s, u)) ==>
          PcOf(s, t).connection != PcOf(s, u).connection)
    && (forall k :: k in s.connections && s.connections[k].released ==> Closing(s, k))
  }

  lemma UsedAlone(s: Sys, a: Action)
    requires UseInv(s)
    ensures !Overtaken(s, a)
  {
    assert UseOk(s.connections, PcOf(s, a.thread));
    hide Admits;
  }

  // How a step of `t` leaves the connections: all but at most one, which `t` is using, as they were or new.
  predicate Touches(connections: map<nat, Connection>, connections': map<nat, Connection>, pc: Pc) {
    forall k :: k in connections && !(Using(pc) && pc.connection == k) ==>
      k in connections' && connections'[k] == connections[k]
  }

  predicate Adds(connections: map<nat, Connection>, connections': map<nat, Connection>) {
    forall k :: k in connections' && k !in connections ==> !connections'[k].released
  }

  // The position and connections after a step of a thread that uses a connection, or starts to.
  ghost predicate UseMoves(s: Sys, s': Sys, t: nat) {
    var pc, pc' := PcOf(s, t), PcOf(s', t);
    && (forall u: nat :: u != t ==> PcOf(s', u) == PcOf(s, u))
    && Touches(s.connections, s'.connections, pc) && Adds(s.connections, s'.connections)
    && UseOk(s'.connections, pc')
    && (Using(pc') && !(Using(pc) && pc.connection == pc'.connection) ==>
          forall u: nat :: u != t && Using(PcOf(s, u)) ==> PcOf(s, u).connection != pc'.connection)
    && (Using(pc) && pc.connection in s'.connections && s'.connections[pc.connection].released ==>
          pc'.Freeing? && pc'.connection == pc.connection)
  }

  lemma UseMovesKeeps(s: Sys, s': Sys, t: nat)
    requires UseInv(s) && UseMoves(s, s', t)
    ensures UseInv(s')
  {
    var pc := PcOf(s, t);
    forall u: nat
      ensures UseOk(s'.connections, PcOf(s', u))
    {
      if u != t {
        assert UseOk(s.connections, PcOf(s, u));
      }
    }
    forall k | k in s'.connections && s'.connections[k].released
      ensures Closing(s', k)
    {
      if Using(pc) && pc.connection == k {
        assert PcOf(s', t).Freeing?;
      } else {
        assert Closing(s, k);
        var u: nat :| PcOf(s, u).Freeing? && PcOf(s, u).connection == k;
        assert PcOf(s', u) == PcOf(s, u);
      }
    }
  }

  lemma StartUses(s: Sys, t: nat, call: Call, now: int)
    requires PcOf(s, t).Idle? || PcOf(s, t).Done?
    ensures var pc := PcOf(StartCall(s, t, call, now), t);
            && (Using(pc) ==> (call.Bind? || call.Close?) && pc.connection == call.connection)
            && (Using(pc) ==> pc.connection in s.connections)
            && (pc.BindLock? ==> !s.connections[pc.connection].bound)
            && (pc.CloseLock? ==> s.connections[pc.connection].bound)
            && (pc.Freeing? ==> !s.connections[pc.connection].bound)
  {
    hide RevocationOf;
    hide ExpiryRevocation;
    hide Validates;
  }

  lemma BindUses(s: Sys, t: nat, k: nat, token: Option<nat>, now: int, drawn: nat)
    ensures var s' := BindLocked(s, t, k, token, now, drawn);
            && !Using(PcOf(s', t))
            && (forall j :: j in s.connections && j != k ==>
                j in s'.connections && s'.connections[j] == s.connections[j])
            && s'.connections.Keys == s.connections.Keys
            && (k in s.connections ==> s'.connections[k] == s.connections[k] || !s'.connections[k].released)
  {
    ExpiryCounts(s, now);
    hide AfterExpiry;
    hide ExpiryRevocation;
    hide Current;
  }

  lemma CloseUses(s: Sys, t: nat, k: nat)
    ensures var s' := CloseLocked(s, t, k);
            && s'.connections == Released(s.connections, k)
            && PcOf(s', t).Freeing? && PcOf(s', t).connection == k
  {
    hide RevocationOf;
    hide Released;
  }

  lemma UnusedNotReleased(s: Sys, k: nat)
    requires UseInv(s) && forall t: nat :: Using(PcOf(s, t)) ==> PcOf(s, t).connection != k
    ensures k in s.connections ==> !s.connections[k].released
  {
    assert !Closing(s, k);
  }

  lemma StepUses(s: Sys, a: Action)
    requires OwnerInv(s) && UseInv(s) && Serial(s, a)
    ensures UseMoves(s, Step(s, a), a.thread)
  {
    hide StartCall;
    hide ShakeLocked;
    hide BindLocked;
    hide CloseLocked;
    hide OwnerInv;
    hide EndsOwing;
    var t, pc := a.thread, PcOf(s, a.thread);
    assert UseOk(s.connections, pc);
    StepMovesOne(s, a);
    if a.Start? {
      if pc.Idle? || pc.Done? {
        StartCounts(s, t, a.call, a.now);
        StartUses(s, t, a.call, a.now);
        if a.call.Close? {
          UnusedNotReleased(s, a.call.connection);
        }
      }
    } else if pc.BindLock? {
      BindUses(s, t, pc.connection, pc.token, a.now, a.token);
    } else if pc.CloseLock? {
      CloseUses(s, t, pc.connection);
    } else if pc.Shaking? {
      ShakeUses(s, t, pc.generation, pc.fingerprint, a.handle, a.ok);
    }
  }

  lemma ShakeUses(s: Sys, t: nat, generation: nat, fingerprint: nat, handle: nat, ok: bool)
    ensures var s' := ShakeLocked(s, t, generation, fingerprint, handle, ok);
            && PcOf(s', t).Done? && Adds(s.connections, s'.connections)
            && forall k :: k in s.connections ==> k in s'.connections && s'.connections[k] == s.connections[k]
  {
  }

  lemma {:induction false} SerialNeverOvertaken(s: Sys, run: seq<Action>)
    requires OwnerInv(s) && UseInv(s) && SerialRun(s, run)
    ensures NeverOvertaken(s, run)
    decreases run
  {
    if run != [] {
      hide Step;
      hide OwnerInv;
      hide UseInv;
      hide Serial;
      hide Overtaken;
      UsedAlone(s, run[0]);
      StepUses(s, run[0]);
      UseMovesKeeps(s, Step(s, run[0]), run[0].thread);
      StepKeepsOwner(s, run[0]);
      SerialNeverOvertaken(Step(s, run[0]), run[1..]);
    }
  }

  lemma StepMovesOne(s: Sys, a: Action)
    requires OwnerInv(s)
    ensures forall u: nat :: u != a.thread ==> PcOf(Step(s, a), u) == PcOf(s, u)
  {
    hide StartCall;
    hide ShakeLocked;
    hide BindLocked;
    hide CloseLocked;
    hide OwnerInv;
    hide EndsOwing;
    var t, pc := a.thread, PcOf(s, a.thread);
    if a.Start? {
      if pc.Idle? || pc.Done? {
        StartEnds(s, t, a.call, a.now);
      }
    } else if pc.Shaking? {
      ShakeEnds(s, t, pc.generation, pc.fingerprint, a.handle, a.ok);
    } else if pc.BindLock? {
      BindEnds(s, t, pc.connection, pc.token, a.now, a.token);
    } else if pc.CloseLock? {
      CloseEnds(s, t, pc.connection);
    }
  }

  // ---------------------------------------------------------------- handshakes

  ghost predicate ShakeInv(s: Sys) {
    && s.pending == |s.shaking| <= MAX_PENDING
    && forall t: nat :: PcOf(s, t).Shaking? <==> t in s.shaking
  }

  lemma StartShakes(s: Sys, t: nat, call: Call, now: int)
    requires PcOf(s, t).Idle? || PcOf(s, t).Done?
    ensures var s' := StartCall(s, t, call, now);
            if PcOf(s', t).Shaking? then
              s.pending < MAX_PENDING && s'.pending == s.pending + 1 && s'.shaking == s.shaking + {t}
            else s'.pending == s.pending && s'.shaking == s.shaking
  {
  }

  lemma BindShakes(s: Sys, t: nat, k: nat, token: Option<nat>, now: int, drawn: nat)
    ensures var s' := BindLocked(s, t, k, token, now, drawn);
            s'.pending == s.pending && s'.shaking == s.shaking && !PcOf(s', t).Shaking?
  {
    ExpiryCounts(s, now);
    hide AfterExpiry;
    hide ExpiryRevocation;
    hide Current;
  }

  lemma ShakeRests(s: Sys, t: nat, generation: nat, fingerprint: nat, handle: nat, ok: bool)
    ensures var s' := ShakeLocked(s, t, generation, fingerprint, handle, ok);
            && PcOf(s', t).Done? && s'.shaking == s.shaking - {t}
            && s'.pending == if s.pending > 0 then s.pending - 1 else 0
  {
  }

  // Closing, freeing, making the handler call, or having nothing to do.
  lemma OtherRests(s: Sys, a: Action)
    requires a.Go? && !PcOf(s, a.thread).Shaking? && !PcOf(s, a.thread).BindLock?
    ensures var s' := Step(s, a);
            s'.pending == s.pending && s'.shaking == s.shaking && !PcOf(s', a.thread).Shaking?
  {
    hide RevocationOf;
    hide Released;
  }

  lemma StepKeepsShake(s: Sys, a: Action)
    requires OwnerInv(s) && ShakeInv(s)
    ensures ShakeInv(Step(s, a))
  {
    var t, pc := a.thread, PcOf(s, a.thread);
    StepMovesOne(s, a);
    hide StartCall;
    hide ShakeLocked;
    hide BindLocked;
    hide CloseLocked;
    hide OwnerInv;
    if a.Start? {
      if pc.Idle? || pc.Done? {
        StartShakes(s, t, a.call, a.now);
        ShakersKeep(s, StartCall(s, t, a.call, a.now), t);
      }
    } else if pc.BindLock? {
      BindShakes(s, t, pc.connection, pc.token, a.now, a.token);
      ShakersKeep(s, BindLocked(s, t, pc.connection, pc.token, a.now, a.token), t);
    } else if pc.Shaking? {
      ShakeRests(s, t, pc.generation, pc.fingerprint, a.handle, a.ok);
      assert t in s.shaking;
      ShakersKeep(s, ShakeLocked(s, t, pc.generation, pc.fingerprint, a.handle, a.ok), t);
    } else {
      OtherRests(s, a);
      hide Step;
      ShakersKeep(s, Step(s, a), t);
    }
  }

  lemma ShakersKeep(s: Sys, s': Sys, t: nat)
    requires ShakeInv(s) && (forall u: nat :: u != t ==> PcOf(s', u) == PcOf(s, u))
    requires if PcOf(s', t).Shaking? then s'.shaking == s.shaking + {t} && s'.pending == s.pending + 1 <= MAX_PENDING
             else s'.shaking == s.shaking - {t} &&
                  s'.pending == if PcOf(s, t).Shaking? && s.pending > 0 then s.pending - 1 else s.pending
    requires PcOf(s', t).Shaking? ==> !PcOf(s, t).Shaking?
    ensures ShakeInv(s')
  {
    assert PcOf(s, t).Shaking? <==> t in s.shaking;
    if !PcOf(s, t).Shaking? {
      assert s.shaking - {t} == s.shaking;
    }
  }

  // ---------------------------------------------------------------- whole runs

  ghost predicate Inv(s: Sys) {
    OwnerInv(s) && RevokeInv(s) && ShakeInv(s) && EndedOk(s)
  }

  lemma BootedInv(s: Sys)
    requires Booted(s)
    ensures Inv(s) && Counted(s) && UseInv(s)
  {
    assert OpenSet(s.connections) == {};
  }

  lemma {:induction false} ExecKeepsInv(s: Sys, run: seq<Action>)
    requires Inv(s)
    ensures Inv(Exec(s, run))
    decreases run
  {
    if run != [] {
      hide Step;
      hide OwnerInv;
      hide RevokeInv;
      hide ShakeInv;
      hide EndedOk;
      StepKeepsOwner(s, run[0]);
      StepKeepsEnded(s, run[0]);
      StepKeepsRevoke(s, run[0]);
      StepKeepsShake(s, run[0]);
      ExecKeepsInv(Step(s, run[0]), run[1..]);
    }
  }

  /**
   Whenever validation says OK, the connection's credential is the active one and its session is the
   current owner: the very session it was bound to exactly when fewer than 2^32 - 1 sessions have
   been opened since (a longer-lived connection would share its id with a stranger).
   */
  lemma ValidMeansCurrent(s: Sys, run: seq<Action>, k: nat, id: nat, now: int)
    requires Booted(s) && Validates(AfterExpiry(Exec(s, run), now), k, id)
    ensures var s' := Exec(s, run);
            && s'.connections[k].bound && s'.owner.Some? && !OwnerExpired(s', now)
            && s'.connections[k].id == s'.owner.value.id == id
            && Current(s', s'.connections[k].generation, s'.connections[k].fingerprint)
            && (s'.connections[k].serial == s'.owner.value.serial <==> s'.issued - s'.connections[k].serial < IDS)
  {
    BootedInv(s);
    ExecKeepsInv(s, run);
    var s' := Exec(s, run);
    var c, o := s'.connections[k], s'.owner.value;
    if s'.issued - c.serial < IDS {
      IdsDiffer(c.serial, o.serial);
    }
  }

  /**
   Once a handler is registered, every owner session that was open then or has been opened since, and is
   not the owner any more, be it by pairing, expiry, close or clear, has had or will have exactly one
   handler call: no call is repeated, none is made for any other session, and a call still to be made is
   owed by exactly one thread.
   */
  lemma RevokedExactlyOnce(s: Sys, run: seq<Action>)
    requires Booted(s)
    ensures var s' := Exec(s, run);
            && (forall i, j :: 0 <= i < j < |s'.revoked| ==> s'.revoked[i] != s'.revoked[j])
            && (forall k: nat :: Over(s'.handler, s'.since, s'.issued, s'.owner.Some?, k) <==>
                  k in s'.revoked || exists t: nat :: Owed(PcOf(s', t)) == Some(k))
            && (forall t: nat, u: nat :: t != u && Owed(PcOf(s', t)).Some? ==> Owed(PcOf(s', u)) != Owed(PcOf(s', t)))
            && (forall t: nat :: Owed(PcOf(s', t)).Some? ==> Owed(PcOf(s', t)).value !in s'.revoked)
  {
    BootedInv(s);
    ExecKeepsInv(s, run);
    var s' := Exec(s, run);
    hide Exec;
    hide OwnerInv;
    hide ShakeInv;
    forall k: nat
      ensures Over(s'.handler, s'.since, s'.issued, s'.owner.Some?, k) <==>
              k in s'.revoked || exists t: nat :: Owed(PcOf(s', t)) == Some(k)
    {
      assert k in s'.ended <==> Over(s'.handler, s'.since, s'.issued, s'.owner.Some?, k);
    }
  }

  /** Pending handshakes are exactly the handshakes under way, at most two. */
  lemma HandshakesBounded(s: Sys, run: seq<Action>)
    requires Booted(s)
    ensures var s' := Exec(s, run);
            s'.pending == |s'.shaking| <= MAX_PENDING && forall t: nat :: PcOf(s', t).Shaking? <==> t in s'.shaking
  {
    BootedInv(s);
    ExecKeepsInv(s, run);
  }

  /**
   The counter is the number of open bound connections in every state of a run exactly when no call is
   overtaken between its look at `bound` outside the lock and what it does on the strength of it: no
   admissible bind of a connection another bind has meanwhile counted, no second close of one another
   close has taken out, and no free by a close of one a bind has counted since.
   */
  lemma BoundIsCountedExactly(s: Sys, run: seq<Action>)
    requires Booted(s)
    ensures CountedAlong(s, run) <==> NeverOvertaken(s, run)
  {
    BootedInv(s);
    CountedExactly(s, run);
  }

  /** With one call at a time per connection nothing is overtaken, and the counter is right. */
  lemma BoundIsCounted(s: Sys, run: seq<Action>)
    requires Booted(s) && SerialRun(s, run)
    ensures NeverOvertaken(s, run) && Exec(s, run).bound == |OpenSet(Exec(s, run).connections)|
  {
    BootedInv(s);
    SerialNeverOvertaken(s, run);
    CountedExactly(s, run);
  }

  // ---------------------------------------------------------------- overtaken calls

  lemma {:induction false} ExecConcat(s: Sys, first: seq<Action>, second: seq<Action>)
    ensures Exec(s, first + second) == Exec(Exec(s, first), second)
    decreases first
  {
    hide Step;
    if first == [] {
      assert first + second == second;
    } else {
      assert (first + second)[1..] == first[1..] + second;
      ExecConcat(Step(s, first[0]), first[1..], second);
    }
  }

  lemma ExecTwo(s: Sys, a: Action, b: Action)
    ensures Exec(s, [a, b]) == Step(Step(s, a), b)
  {
    hide Step;
    assert [a, b][1..] == [b] && [b][1..] == [];
    assert Exec(Step(s, a), [b]) == Exec(Step(Step(s, a), b), []);
  }

  // Thread 0 accepts connection `k`.
  function AcceptRun(k: nat): seq<Action> { [Start(0, Accept, 0), Go(0, 0, 0, k, true)] }

  function NewConnection(s: Sys): Connection
    requires s.credential.Some?
  {
    Connection(s.credential.value.generation, s.credential.value.fingerprint, false, 0, 0, false)
  }

  function Accepted(s: Sys, k: nat): Sys
    requires s.credential.Some?
  {
    s.(connections := s.connections[k := NewConnection(s)], threads := s.threads[0 := Done(Ok)])
  }

  // Thread 0 is at rest, no handshake is under way, and the clock has not moved.
  predicate Calm(s: Sys) {
    && (PcOf(s, 0).Idle? || PcOf(s, 0).Done?) && s.pending == 0 && s.shaking == {} && s.credential.Some?
    && (s.owner.Some? ==> s.owner.value.lastActivity == 0)
  }

  lemma AcceptLands(s: Sys, k: nat)
    requires Calm(s) && k !in s.connections
    ensures Exec(s, AcceptRun(k)) == Accepted(s, k)
  {
    var s1 := Step(s, Start(0, Accept, 0));
    assert s1 == AcceptLocked(s, 0);
    assert s.shaking + {0} - {0} == {};
    assert s1.threads[0 := Done(Ok)] == Accepted(s, k).threads;
    ExecTwo(s, Start(0, Accept, 0), Go(0, 0, 0, k, true));
  }

  // The locked section of a bind that is let in, at time 0.
  function Counts(s: Sys, t: nat, k: nat, drawn: nat): Sys
    requires k in s.connections
  {
    var s1 := if s.owner.Some? then s else NewOwner(s, s.connections[k], drawn, 0);
    Goto(Bound(s1, k, 0), t, Revoking(NoRevocation, Ok))
  }

  lemma BindLands(s: Sys, t: nat, k: nat, token: Option<nat>, drawn: nat)
    requires PcOf(s, t) == BindLock(k, token) && Admits(s, k, token, 0)
    requires s.owner.Some? ==> s.owner.value.lastActivity == 0
    ensures Step(s, Go(t, 0, drawn, 0, true)) == Counts(s, t, k, drawn)
  {
  }

  // A first connection, 4, opens the owner session, whose token turns out to be 9; then connection 5 is accepted.
  function OwnerRun(): seq<Action> {
    AcceptRun(4) + ([Start(0, Bind(4, None), 0), Go(0, 0, 9, 0, true)] + ([Go(0, 0, 0, 0, true)] + AcceptRun(5)))
  }

  function Owned(s: Sys): Sys
    requires s.credential.Some?
  {
    var c := NewConnection(s);
    s.(owner := Some(OwnerSession(1, c.generation, c.fingerprint, 9, 0, 1)), next := 2, issued := 1, bound := 1,
       connections := map[4 := c.(bound := true, id := 1, serial := 1), 5 := c], threads := map[0 := Done(Ok)])
  }

  lemma OwnerBinds(s: Sys)
    requires Booted(s) && s.credential.Some?
    ensures var s1 := Accepted(s, 4);
            Step(Step(Step(s1, Start(0, Bind(4, None), 0)), Go(0, 0, 9, 0, true)), Go(0, 0, 0, 0, true)) ==
            Owned(s).(connections := map[4 := Owned(s).connections[4]])
  {
    var s1 := Accepted(s, 4);
    var s2 := Goto(s1, 0, BindLock(4, None));
    assert Step(s1, Start(0, Bind(4, None), 0)) == s2;
    BindLands(s2, 0, 4, None, 9);
    var s3 := Counts(s2, 0, 4, 9);
    assert s3.connections == map[4 := Owned(s).connections[4]];
    assert PcOf(s3, 0) == Revoking(NoRevocation, Ok);
    assert s3.threads[0 := Done(Ok)] == map[0 := Done(Ok)];
  }

  lemma OwnerLands(s: Sys)
    requires Booted(s) && s.credential.Some?
    ensures Exec(s, OwnerRun()) == Owned(s)
  {
    AcceptLands(s, 4);
    OwnerBinds(s);
    hide Step;
    var bind, start, end := Go(0, 0, 9, 0, true), Start(0, Bind(4, None), 0), Go(0, 0, 0, 0, true);
    var s1 := Accepted(s, 4);
    var s3 := Step(Step(s1, start), bind);
    var s4 := Owned(s).(connections := map[4 := Owned(s).connections[4]]);
    assert Step(s3, end) == s4;
    AcceptLands(s4, 5);
    assert Accepted(s4, 5) == Owned(s) by {
      assert s4.connections[5 := NewConnection(s)] == Owned(s).connections;
      assert s4.threads[0 := Done(Ok)] == Owned(s).threads;
    }
    ExecConcat(s, AcceptRun(4), [start, bind] + ([end] + AcceptRun(5)));
    ExecTwo(s1, start, bind);
    ExecConcat(s1, [start, bind], [end] + AcceptRun(5));
    ExecConcat(s3, [end], AcceptRun(5));
    hide AcceptRun;
    assert Exec(s3, [end]) == Exec(Step(s3, end), [][..]) by {
      assert [end][1..] == [];
    }
  }

  predicate AtRest(pc: Pc) { pc.Idle? || pc.Done? }

  // Connection 5 may be bound with token 9, and threads 0 to 2 are at rest.
  predicate Ready(s: Sys) {
    && AtRest(PcOf(s, 0)) && AtRest(PcOf(s, 1)) && AtRest(PcOf(s, 2))
    && Admits(s, 5, Some(9), 0) && !s.connections[5].bound
    && s.owner.Some? && s.owner.value.lastActivity == 0
  }

  lemma OwnedIsReady(s: Sys)
    requires Booted(s) && s.credential.Some?
    ensures Ready(Owned(s)) && Owned(s).bound == 1 && OpenSet(Owned(s).connections) == {4}
  {
  }

  lemma ExecFour(s: Sys, a: Action, b: Action, c: Action, d: Action)
    ensures Exec(s, [a, b] + [c, d]) == Step(Step(Step(Step(s, a), b), c), d)
  {
    hide Step;
    hide Exec;
    ExecTwo(s, a, b);
    ExecTwo(Step(Step(s, a), b), c, d);
    ExecConcat(s, [a, b], [c, d]);
  }

  const BindFive := Bind(5, Some(9))

  // `t` has looked at `bound`, and binds connection 5 once it has the lock.
  lemma BindStarts(s: Sys, t: nat)
    requires (PcOf(s, t).Idle? || PcOf(s, t).Done?) && 5 in s.connections && !s.connections[5].bound
    ensures Step(s, Start(t, BindFive, 0)) == Goto(s, t, BindLock(5, Some(9)))
  {
  }

  // Counting connection 5 leaves the owner as it is and other threads where they are.
  lemma BindFiveLands(s: Sys, t: nat)
    requires PcOf(s, t) == BindLock(5, Some(9)) && Admits(s, 5, Some(9), 0)
    requires s.owner.Some? && s.owner.value.lastActivity == 0
    ensures var s' := Step(s, Go(t, 0, 0, 0, true));
            && s' == Counts(s, t, 5, 0) && s'.bound == s.bound + 1
            && OpenSet(s'.connections) == OpenSet(s.connections) + {5}
            && Admits(s', 5, Some(9), 0) && s'.connections[5].bound && s'.owner == s.owner
            && (forall u: nat :: u != t ==> PcOf(s', u) == PcOf(s, u))
  {
    BindLands(s, t, 5, Some(9), 0);
    BoundCountsOne(s, 5, 0);
    hide Step;
    hide OpenSet;
  }

  // Two binds of connection 5 look at `bound` before either takes the lock.
  function BindsRun(): seq<Action> {
    [Start(0, BindFive, 0), Start(1, BindFive, 0)] + [Go(0, 0, 0, 0, true), Go(1, 0, 0, 0, true)]
  }

  lemma BindsLand(s: Sys)
    requires Ready(s)
    ensures var s' := Exec(s, BindsRun());
            s'.bound == s.bound + 2 && OpenSet(s'.connections) == OpenSet(s.connections) + {5}
  {
    hide OpenSet;
    BindStarts(s, 0);
    var s1 := Goto(s, 0, BindLock(5, Some(9)));
    BindStarts(s1, 1);
    var s2 := Goto(s1, 1, BindLock(5, Some(9)));
    BindFiveLands(s2, 0);
    var s3 := Step(s2, Go(0, 0, 0, 0, true));
    BindFiveLands(s3, 1);
    hide Step;
    hide Exec;
    ExecFour(s, Start(0, BindFive, 0), Start(1, BindFive, 0), Go(0, 0, 0, 0, true), Go(1, 0, 0, 0, true));
  }

  /** A connection counted twice: 3 for the two open connections. */
  lemma OverlappingBindsMiscount(s: Sys)
    requires Booted(s) && s.credential.Some?
    ensures var s' := Exec(s, OwnerRun() + BindsRun()); s'.bound == 3 && OpenSet(s'.connections) == {4, 5}
  {
    OwnerLands(s);
    OwnedIsReady(s);
    hide *;
    ExecConcat(s, OwnerRun(), BindsRun());
    BindsLand(Owned(s));
  }

  // A close of connection 5 looks at `bound` between the look of a bind and its locked section.
  function CloseRun(): seq<Action> {
    [Start(0, BindFive, 0), Start(1, Close(5), 0)] + [Go(0, 0, 0, 0, true), Go(1, 0, 0, 0, true)]
  }

  lemma CloseLands(s: Sys)
    requires Ready(s)
    ensures var s' := Exec(s, CloseRun());
            && s'.bound == s.bound + 1 && OpenSet(s'.connections) == OpenSet(s.connections) - {5}
            && 5 !in s'.connections
  {
    hide OpenSet;
    BindStarts(s, 0);
    var s1 := Goto(s, 0, BindLock(5, Some(9)));
    var s2 := Goto(s1, 1, Freeing(5, NoRevocation));
    assert Step(s1, Start(1, Close(5), 0)) == s2;
    BindFiveLands(s2, 0);
    var s3 := Step(s2, Go(0, 0, 0, 0, true));
    hide Admits;
    FreeStep(s3, 1);
    hide Step;
    hide Exec;
    ExecFour(s, Start(0, BindFive, 0), Start(1, Close(5), 0), Go(0, 0, 0, 0, true), Go(1, 0, 0, 0, true));
    assert OpenSet(s.connections) + {5} - {5} == OpenSet(s.connections) - {5};
  }

  lemma FreeStep(s: Sys, t: nat)
    requires PcOf(s, t) == Freeing(5, NoRevocation)
    ensures var s' := Step(s, Go(t, 0, 0, 0, true));
            && s'.bound == s.bound && OpenSet(s'.connections) == OpenSet(s.connections) - {5}
            && 5 !in s'.connections
  {
    FreeCounts(s, t, 5, NoRevocation);
    hide OpenSet;
  }

  /** A connection counted and gone: 2 for the one open connection, although no bind met a bound connection. */
  lemma OvertakenCloseMiscounts(s: Sys)
    requires Booted(s) && s.credential.Some?
    ensures var s' := Exec(s, OwnerRun() + CloseRun());
            s'.bound == 2 && OpenSet(s'.connections) == {4} && 5 !in s'.connections
  {
    OwnerLands(s);
    OwnedIsReady(s);
    hide *;
    ExecConcat(s, OwnerRun(), CloseRun());
    CloseLands(Owned(s));
  }

  // Connection 5 is bound, and two closes of it look at `bound` before either takes the lock.
  function ClosesRun(): seq<Action> {
    [Start(0, BindFive, 0), Go(0, 0, 0, 0, true)] +
    ([Start(1, Close(5), 0), Start(2, Close(5), 0)] + [Go(1, 0, 0, 0, true), Go(2, 0, 0, 0, true)])
  }

  lemma CloseStarts(s: Sys, t: nat)
    requires (PcOf(s, t).Idle? || PcOf(s, t).Done?) && 5 in s.connections && s.connections[5].bound
    ensures Step(s, Start(t, Close(5), 0)) == Goto(s, t, CloseLock(5))
  {
  }

  lemma CloseStep(s: Sys, t: nat)
    requires PcOf(s, t) == CloseLock(5) && 5 in s.connections
    ensures var s' := Step(s, Go(t, 0, 0, 0, true));
            && s'.bound == (if s.bound > 0 then s.bound - 1 else 0)
            && OpenSet(s'.connections) == OpenSet(s.connections) - {5}
            && 5 in s'.connections && (forall u: nat :: u != t ==> PcOf(s', u) == PcOf(s, u))
  {
    CloseCounts(s, t, 5);
    hide OpenSet;
    hide RevocationOf;
  }

  lemma ClosesLand(s: Sys)
    requires Ready(s) && s.bound > 0
    ensures var s' := Exec(s, ClosesRun());
            && s'.bound == s.bound - 1 && OpenSet(s'.connections) == OpenSet(s.connections) - {5}
            && 5 in s'.connections
  {
    hide OpenSet;
    BindStarts(s, 0);
    var s1 := Goto(s, 0, BindLock(5, Some(9)));
    BindFiveLands(s1, 0);
    var s2 := Step(s1, Go(0, 0, 0, 0, true));
    hide Admits;
    CloseStarts(s2, 1);
    var s3 := Goto(s2, 1, CloseLock(5));
    CloseStarts(s3, 2);
    var s4 := Goto(s3, 2, CloseLock(5));
    CloseStep(s4, 1);
    var s5 := Step(s4, Go(1, 0, 0, 0, true));
    CloseStep(s5, 2);
    hide Step;
    hide Exec;
    var go := [Start(1, Close(5), 0), Start(2, Close(5), 0)] + [Go(1, 0, 0, 0, true), Go(2, 0, 0, 0, true)];
    ExecTwo(s, Start(0, BindFive, 0), Go(0, 0, 0, 0, true));
    ExecFour(s2, Start(1, Close(5), 0), Start(2, Close(5), 0), Go(1, 0, 0, 0, true), Go(2, 0, 0, 0, true));
    ExecConcat(s, [Start(0, BindFive, 0), Go(0, 0, 0, 0, true)], go);
    assert OpenSet(s.connections) + {5} - {5} - {5} == OpenSet(s.connections) - {5};
  }

  /** A connection taken out twice: 0 for the one open connection, before either close frees anything. */
  lemma OverlappingClosesMiscount(s: Sys)
    requires Booted(s) && s.credential.Some?
    ensures var s' := Exec(s, OwnerRun() + ClosesRun());
            s'.bound == 0 && OpenSet(s'.connections) == {4} && 5 in s'.connections
  {
    OwnerLands(s);
    OwnedIsReady(s);
    hide *;
    ExecConcat(s, OwnerRun(), ClosesRun());
    ClosesLand(Owned(s));
  }
}
