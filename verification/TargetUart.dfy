/**
 Sessions, transmit ownership and suspension in `firmware/components/target_uart/target_uart.c`:
 any number of threads under the two mutexes, with driver calls in progress while only the
 transmit mutex is held. The receive rings, touched under the state mutex alone, are in `UartRing`.
 */
module TargetUart {
  import opened Options

  datatype Transport = Usb | Network

  datatype Result =
    | Ok | AlreadyOwner | InvalidArgument | Unauthenticated | Busy | StaleSession | NotOwner | IoError | Timeout

  datatype Owner = Owner(transport: Transport, session: nat)

  datatype Call =
    | Open(transport: Transport, authenticated: bool)
    | Close(transport: Transport, session: nat)
    | Acquire(transport: Transport, session: nat)
    | Configure(transport: Transport, session: nat)
    | Write(transport: Transport, session: nat)
    | Suspend
    | Resume

  datatype Pc =
    | Idle
    | Done(result: Result, session: nat)
    | WaitTx(call: Call)
    | WaitState(call: Call)
    | Locked(call: Call)
    // leaving the state mutex, with what comes after it
    | Leaving(target: Pc)
    // a driver call on behalf of a session, from before it starts until it has returned
    | Driving(transport: Transport, session: nat)
    | Draining
    | ReleaseTx(result: Result)

  datatype Sys = Sys(usb: nat, network: nat, next: nat, owner: Option<Owner>, suspended: bool,
                     tx: Option<nat>, state: Option<nat>, threads: map<nat, Pc>)

  const Init := Sys(0, 0, 1, None, false, None, None, map[])

  /** `ok`: a timed lock is obtained in time, a driver call succeeds, there is room to write. */
  datatype Action = Start(thread: nat, call: Call) | Go(thread: nat, ok: bool)

  function PcOf(s: Sys, t: nat): Pc { if t in s.threads then s.threads[t] else Idle }

  function Goto(s: Sys, t: nat, pc: Pc): Sys { s.(threads := s.threads[t := pc]) }

  function Session(s: Sys, tr: Transport): nat { if tr.Usb? then s.usb else s.network }

  function WithSession(s: Sys, tr: Transport, id: nat): Sys {
    if tr.Usb? then s.(usb := id) else s.(network := id)
  }

  predicate UsesTx(call: Call) { !call.Open? && !call.Resume? }

  function StartCall(s: Sys, t: nat, call: Call): Sys {
    if call.Open? && call.transport.Network? && !call.authenticated then Goto(s, t, Done(Unauthenticated, 0))
    else if (call.Close? || call.Acquire? || call.Configure? || call.Write?) && call.session == 0 then
      Goto(s, t, Done(InvalidArgument, 0))
    else Goto(s, t, if UsesTx(call) then WaitTx(call) else WaitState(call))
  }

  // `validate_tx_owner_locked`
  function OwnerCheck(s: Sys, tr: Transport, id: nat): Result {
    if s.suspended then Busy
    else if Session(s, tr) != id then StaleSession
    else if s.owner == Some(Owner(tr, id)) then Ok
    else NotOwner
  }

  // What each call does while it holds the state mutex.
  function InState(s: Sys, t: nat, call: Call): Sys {
    match call
    case Open(tr, _) =>
      if Session(s, tr) != 0 then Goto(s, t, Leaving(Done(Busy, 0)))
      else if s.next == 0 then s.(next := 1)
      else Goto(WithSession(s, tr, s.next).(next := (s.next + 1) % 0x1_0000_0000), t, Leaving(Done(Ok, s.next)))
    case Close(tr, id) =>
      if Session(s, tr) != id then Goto(s, t, Leaving(ReleaseTx(StaleSession)))
      else
        Goto(WithSession(s, tr, 0).(owner := if s.owner == Some(Owner(tr, id)) then None else s.owner), t,
             Leaving(ReleaseTx(Ok)))
    case Acquire(tr, id) =>
      if Session(s, tr) != id then Goto(s, t, Leaving(ReleaseTx(StaleSession)))
      else if s.suspended then Goto(s, t, Leaving(ReleaseTx(Busy)))
      else if s.owner.None? then Goto(s.(owner := Some(Owner(tr, id))), t, Leaving(ReleaseTx(Ok)))
      else Goto(s, t, Leaving(ReleaseTx(if s.owner == Some(Owner(tr, id)) then AlreadyOwner else Busy)))
    case Configure(tr, id) =>
      var r := OwnerCheck(s, tr, id);
      Goto(s, t, Leaving(if r == Ok then Driving(tr, id) else ReleaseTx(r)))
    case Write(tr, id) =>
      var r := OwnerCheck(s, tr, id);
      Goto(s, t, Leaving(if r == Ok then Driving(tr, id) else ReleaseTx(r)))
    case Suspend => Goto(s.(suspended := true, owner := None), t, Leaving(Draining))
    case Resume => Goto(s.(suspended := false), t, Leaving(Done(Ok, 0)))
  }

  function GoOn(s: Sys, t: nat, ok: bool): Sys {
    match PcOf(s, t)
    case WaitTx(call) =>
      if s.tx.None? then Goto(s.(tx := Some(t)), t, WaitState(call))
      else if call.Suspend? && !ok then Goto(s, t, Done(Timeout, 0))
      else s
    case WaitState(call) => if s.state.None? then Goto(s.(state := Some(t)), t, Locked(call)) else s
    case Locked(call) => InState(s, t, call)
    case Leaving(target) => Goto(s.(state := None), t, target)
    case Driving(_, _) => Goto(s, t, ReleaseTx(if ok then Ok else IoError))
    case Draining => Goto(s, t, ReleaseTx(if ok then Ok else Timeout))
    case ReleaseTx(result) => Goto(s.(tx := None), t, Done(result, 0))
    case _ => s
  }

  function Step(s: Sys, a: Action): Sys {
    match a
    case Start(t, call) => if PcOf(s, t).Idle? || PcOf(s, t).Done? then StartCall(s, t, call) else s
    case Go(t, ok) => GoOn(s, t, ok)
  }

  function Exec(s: Sys, run: seq<Action>): Sys
    decreases run
  {
    if run == [] then s else Exec(Step(s, run[0]), run[1..])
  }

  // ---------------------------------------------------------------- the invariant

  predicate HoldsTx(pc: Pc) {
    match pc
    case WaitState(call) => UsesTx(call)
    case Locked(call) => UsesTx(call)
    case Leaving(target) => target.Driving? || target.Draining? || target.ReleaseTx?
    case Driving(_, _) => true
    case Draining => true
    case ReleaseTx(_) => true
    case _ => false
  }

  predicate HoldsState(pc: Pc) { pc.Locked? || pc.Leaving? }

  // The thread is about to drive, or is driving, the UART for a session.
  function Drives(pc: Pc): Option<Owner> {
    if pc.Driving? then Some(Owner(pc.transport, pc.session))
    else if pc.Leaving? && pc.target.Driving? then Some(Owner(pc.target.transport, pc.target.session))
    else None
  }

  predicate OwnerOk(s: Sys) {
    s.owner.Some? ==>
      s.owner.value.session != 0 && Session(s, s.owner.value.transport) == s.owner.value.session && !s.suspended
  }

  // Positions carry what their call was checked for.
  predicate PcOk(pc: Pc) {
    match pc
    case WaitTx(call) => UsesTx(call) && CallOk(call)
    case WaitState(call) => CallOk(call)
    case Locked(call) => CallOk(call)
    case Leaving(target) => target.Done? || target.Driving? || target.Draining? || target.ReleaseTx?
    case _ => true
  }

  predicate CallOk(call: Call) {
    call.Close? || call.Acquire? || call.Configure? || call.Write? ==> call.session != 0
  }

  predicate ThreadOk(s: Sys, t: nat) {
    var pc := PcOf(s, t);
    && PcOk(pc)
    && (HoldsTx(pc) ==> s.tx == Some(t))
    && (HoldsState(pc) ==> s.state == Some(t))
    && (Drives(pc).Some? ==> s.owner == Drives(pc))
  }

  ghost predicate Inv(s: Sys) {
    OwnerOk(s) && forall t: nat :: ThreadOk(s, t)
  }

  lemma LockedKeeps(s: Sys, t: nat, call: Call)
    requires OwnerOk(s) && ThreadOk(s, t) && PcOf(s, t) == Locked(call)
    ensures var s' := InState(s, t, call);
            && OwnerOk(s') && ThreadOk(s', t)
            && s'.tx == s.tx && s'.state == s.state
            && (s'.owner != s.owner ==> UsesTx(call))
  {
  }

  lemma StepOwn(s: Sys, a: Action)
    requires OwnerOk(s) && ThreadOk(s, a.thread)
    ensures var s' := Step(s, a);
            && OwnerOk(s') && ThreadOk(s', a.thread)
            && (s'.owner != s.owner ==> s.tx == Some(a.thread))
            && (s'.tx == s.tx || (s.tx.None? && s'.tx == Some(a.thread)) || s.tx == Some(a.thread))
            && (s'.state == s.state || s.state.None? || s.state == Some(a.thread))
  {
    if a.Go? && PcOf(s, a.thread).Locked? {
      LockedKeeps(s, a.thread, PcOf(s, a.thread).call);
      hide InState;
    }
  }

  lemma StepOthers(s: Sys, a: Action, u: nat)
    requires u != a.thread
    ensures PcOf(Step(s, a), u) == PcOf(s, u)
  {
  }

  lemma StepKeepsInv(s: Sys, a: Action)
    requires Inv(s)
    ensures Inv(Step(s, a))
  {
    var s' := Step(s, a);
    assert ThreadOk(s, a.thread);
    StepOwn(s, a);
    forall u: nat
      ensures ThreadOk(s', u)
    {
      assert ThreadOk(s, u);
      if u != a.thread {
        StepOthers(s, a, u);
        DrivesHoldsTx(PcOf(s, u));
      }
    }
  }

  lemma DrivesHoldsTx(pc: Pc)
    ensures Drives(pc).Some? ==> HoldsTx(pc)
  {
  }

  lemma {:induction false} ExecKeepsInv(s: Sys, run: seq<Action>)
    requires Inv(s)
    ensures Inv(Exec(s, run))
    decreases run
  {
    if run != [] {
      hide Step;
      hide Inv;
      StepKeepsInv(s, run[0]);
      ExecKeepsInv(Step(s, run[0]), run[1..]);
    }
  }

  /**
   In every interleaving: all the time a session's write or configuration is in the driver, that
   session is live, is the transmit owner, and the UART is not suspended; and no other thread is in
   the driver for a session.
   */
  lemma DriverCallsAreOwned(run: seq<Action>, t: nat)
    requires PcOf(Exec(Init, run), t).Driving?
    ensures var s := Exec(Init, run);
            var pc := PcOf(s, t);
            && pc.session != 0 && Session(s, pc.transport) == pc.session
            && s.owner == Some(Owner(pc.transport, pc.session)) && !s.suspended
            && forall u: nat :: u != t ==> !PcOf(s, u).Driving?
  {
    ExecKeepsInv(Init, run);
    var s := Exec(Init, run);
    assert ThreadOk(s, t);
    forall u: nat | u != t
      ensures !PcOf(s, u).Driving?
    {
      assert ThreadOk(s, u);
    }
  }

  /** A recorded transmit owner is a live session and never coexists with suspension. */
  lemma OwnerIsLive(run: seq<Action>)
    ensures OwnerOk(Exec(Init, run))
  {
    ExecKeepsInv(Init, run);
  }

  // The one step at which a thread's call takes effect.
  predicate TakesEffect(s: Sys, a: Action, call: Call) { a.Go? && PcOf(s, a.thread) == Locked(call) }

  /**
   The transmit owner changes in three ways and no other: from nobody to a live session by its own acquire while
   not suspended, which then answers OK; to nobody by closing the owning session; to nobody by suspension.
   */
  lemma OwnerMoves(run: seq<Action>, a: Action)
    ensures var s, s' := Exec(Init, run), Step(Exec(Init, run), a);
            && (s.owner.None? && s'.owner.Some? <==>
                  exists tr, id :: TakesEffect(s, a, Acquire(tr, id)) && Session(s, tr) == id &&
                    !s.suspended && s.owner.None?)
            && (s'.owner.Some? && s'.owner != s.owner ==>
                  && s.owner.None? && TakesEffect(s, a, Acquire(s'.owner.value.transport, s'.owner.value.session))
                  && PcOf(s', a.thread) == Leaving(ReleaseTx(Ok)))
            && (s.owner.Some? && s'.owner.None? <==>
                  s.owner.Some? && (TakesEffect(s, a, Suspend) ||
                                    TakesEffect(s, a, Close(s.owner.value.transport, s.owner.value.session))))
  {
    ExecKeepsInv(Init, run);
    var s := Exec(Init, run);
    hide Exec;
    assert ThreadOk(s, a.thread);
    if a.Go? && PcOf(s, a.thread).Locked? && PcOf(s, a.thread).call.Acquire? {
      var call := PcOf(s, a.thread).call;
      assert TakesEffect(s, a, Acquire(call.transport, call.session));
    }
  }

  /** Once a suspension has been set, no driver call for a session is in progress, and none starts before a resume. */
  lemma SuspensionIsQuiet(run: seq<Action>, t: nat)
    requires Exec(Init, run).suspended
    ensures Drives(PcOf(Exec(Init, run), t)).None?
  {
    ExecKeepsInv(Init, run);
    assert ThreadOk(Exec(Init, run), t);
  }
}
