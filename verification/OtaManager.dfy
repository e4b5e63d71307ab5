/**
 `firmware/components/ota_manager/ota_manager.c` as one machine with the mode word, the bus
 arbiter and the UART: threads queue on the session mutex, and the thread that holds it walks
 through mode events, bus suspension and UART suspension, with every failure exit. All other
 threads keep using the mode word and the bus as they like.
 */
module OtaManager {
  import O = Ownership
  import A = Arbitration
  import opened M = ModeWord
  import opened Options
  import opened OtaSession

  /** How `airdap_target_uart_suspend` ends: refused, suspended but not drained, or done. */
  datatype UartOutcome = Refused | NotDrained | Suspended

  datatype Pc =
    | Rested
    | Done(call: Call, status: Status)
    | Locking(call: Call)
    | BeginMode(call: Call, caller: Caller, size: nat, room: nat)
    | BeginBus(call: Call, caller: Caller, size: nat, room: nat)
    | BeginUndo(call: Call, status: Status)
    | BeginUart(call: Call, caller: Caller, size: nat, room: nat)
    | BeginFlash(call: Call, caller: Caller, size: nat, room: nat)
    | RestoreMode(call: Call, event: Event, onRestored: Status, onFailure: Status)
    | RestoreBus(call: Call, onRestored: Status, onFailure: Status)
    | RestoreUart(call: Call, onRestored: Status)
    | CommitMode(call: Call)
    | Unlocking(call: Call, status: Status)

  /** A finished call: the record when it took the mutex, its answer, and the record it left. */
  datatype Exchange = Exchange(before: Session, call: Call, status: Status, after: Session)

  /** `seen` (the record the holder found) and `served` (every finished call) are history. */
  datatype Sys = Sys(arb: A.Sys, session: Session, uart: bool, mutex: Option<nat>, pcs: map<nat, Pc>,
                     seen: Session, served: seq<Exchange>)

  datatype Action =
    | Outside(action: A.Action)
    | Invoke(thread: nat, call: Call)
    | Proceed(thread: nat, env: Env, outcome: UartOutcome)

  function PcOf(s: Sys, t: nat): Pc {
    if t in s.pcs then s.pcs[t] else Rested
  }

  predicate Resting(pc: Pc) { pc.Rested? || pc.Done? }

  // The thread is in no mode or ownership call.
  predicate Quiet(arb: A.Sys, t: nat) {
    A.Resting(A.PcOf(arb, t)) && O.Resting(O.PcOf(arb.own, t))
  }

  // Only this module emits OTA events and suspends or resumes the bus.
  predicate Reserved(choice: A.Choice) {
    || (choice.Start? && choice.call.Transition? && IsOtaEvent(choice.call.event))
    || (choice.OwnStart? && (choice.request.Suspend? || choice.request.Resume?))
  }

  predicate MayRun(s: Sys, a: A.Action) {
    !Reserved(a.choice) && (a.choice.Start? || a.choice.OwnStart? ==> Resting(PcOf(s, a.thread)))
  }

  function Goto(s: Sys, t: nat, pc: Pc): Sys {
    s.(pcs := s.pcs[t := pc])
  }

  function EmitEvent(s: Sys, t: nat, event: Event, pc: Pc): Sys {
    s.(arb := A.Step(s.arb, A.Action(t, A.Start(A.Transition(event)))), pcs := s.pcs[t := pc])
  }

  function CallBus(s: Sys, t: nat, request: O.Call, pc: Pc): Sys {
    s.(arb := A.Step(s.arb, A.Action(t, A.OwnStart(request))), pcs := s.pcs[t := pc])
  }

  // What the call does right after taking the mutex.
  function Enter(s: Sys, t: nat, call: Call, env: Env): Sys {
    var d := Plan(s.session, call, env);
    var s1 := s.(session := d.session, mutex := Some(t), seen := s.session);
    match d.decision
    case Finish(status) => Goto(s1, t, Unlocking(call, status))
    case Prepare(caller, size, room) => EmitEvent(s1, t, OtaStarted, BeginMode(call, caller, size, room))
    case Restore(event, onRestored, onFailure) =>
      EmitEvent(s1, t, event, RestoreMode(call, event, onRestored, onFailure))
    case Complete => EmitEvent(s1, t, OtaCommitted, CommitMode(call))
  }

  function StartRestore(s: Sys, t: nat, call: Call, status: Status): Sys {
    EmitEvent(s, t, OtaFailed, RestoreMode(call, OtaFailed, status, status))
  }

  // The thread goes on after a finished mode event.
  function AfterEvent(s: Sys, t: nat, pc: Pc, ok: bool): Sys {
    match pc
    case BeginMode(call, caller, size, room) =>
      if ok then CallBus(s, t, O.Suspend, BeginBus(call, caller, size, room))
      else Goto(s, t, Unlocking(call, InternalError))
    case BeginUndo(call, status) => Goto(s, t, Unlocking(call, if ok then status else InternalError))
    case RestoreMode(call, _, onRestored, onFailure) =>
      if ok then CallBus(s, t, O.Resume, RestoreBus(call, onRestored, onFailure))
      else Goto(s, t, Unlocking(call, onFailure))
    case CommitMode(call) => Goto(s, t, Unlocking(call, if ok then Ok else InternalError))
    case _ => s
  }

  // The thread goes on after a finished bus call.
  function AfterBus(s: Sys, t: nat, pc: Pc, result: O.Result): Sys {
    match pc
    case BeginBus(call, caller, size, room) =>
      if result == O.Ok then Goto(s, t, BeginUart(call, caller, size, room))
      else EmitEvent(s, t, OtaFailed, BeginUndo(call, if result == O.Busy then InvalidState else InternalError))
    case RestoreBus(call, onRestored, onFailure) =>
      Goto(s, t, if result == O.Ok then RestoreUart(call, onRestored) else Unlocking(call, onFailure))
    case _ => s
  }

  predicate InEvent(pc: Pc) { pc.BeginMode? || pc.BeginUndo? || pc.RestoreMode? || pc.CommitMode? }

  predicate InBus(pc: Pc) { pc.BeginBus? || pc.RestoreBus? }

  function Local(s: Sys, t: nat, env: Env, outcome: UartOutcome): Sys {
    match PcOf(s, t)
    case Locking(call) => if s.mutex.None? then Enter(s, t, call, env) else s
    case BeginUart(call, caller, size, room) =>
      if outcome.Suspended? then s.(uart := true, pcs := s.pcs[t := BeginFlash(call, caller, size, room)])
      else StartRestore(s.(uart := s.uart || outcome.NotDrained?), t, call, Busy)
    case BeginFlash(call, caller, size, room) =>
      if !Authorized(caller, env.authorized) then StartRestore(s, t, call, Unauthenticated)
      else if !env.flashed then StartRestore(s, t, call, InternalError)
      else s.(session := Opened(s.session, caller, size, room), pcs := s.pcs[t := Unlocking(call, Ok)])
    case RestoreUart(call, onRestored) => s.(uart := false, pcs := s.pcs[t := Unlocking(call, onRestored)])
    case Unlocking(call, status) =>
      s.(mutex := None, pcs := s.pcs[t := Done(call, status)],
         served := s.served + [Exchange(s.seen, call, status, s.session)])
    case _ => s
  }

  function Step(s: Sys, a: Action): Sys {
    match a
    case Outside(action) => if MayRun(s, action) then s.(arb := A.Step(s.arb, action)) else s
    case Invoke(t, call) => if Resting(PcOf(s, t)) && Quiet(s.arb, t) then Goto(s, t, Locking(call)) else s
    case Proceed(t, env, outcome) =>
      var pc := PcOf(s, t);
      var inner := A.PcOf(s.arb, t);
      var own := O.PcOf(s.arb.own, t);
      if InEvent(pc) then (if inner.TransitionDone? then AfterEvent(s, t, pc, inner.result.TransitionOk?) else s)
      else if InBus(pc) then (if own.Returned? then AfterBus(s, t, pc, own.result) else s)
      else Local(s, t, env, outcome)
  }

  function Exec(s: Sys, run: seq<Action>): Sys
    decreases run
  {
    if run == [] then s else Exec(Step(s, run[0]), run[1..])
  }

  predicate Booted(s: Sys) {
    A.Booted(s.arb) && s.session == Fresh && !s.uart && s.mutex.None? && s.pcs == map[] && s.served == []
  }

  // ---------------------------------------------------------------- one thread on the mode word and the bus

  predicate BusSuspended(arb: A.Sys) { arb.own.word.state == O.Suspended }

  predicate Suspending(pc: O.Pc) {
    || pc.SuspendCas?
    || (pc.ReleasePins? && pc.target == O.Suspended)
    || (pc.ReleaseStore? && pc.target == O.Suspended)
  }

  predicate OnOtaEvent(pc: A.Pc) {
    (pc.TransitionLoad? || pc.TransitionCas?) && IsOtaEvent(pc.event)
  }

  // The thread is about no OTA business.
  predicate Innocent(arb: A.Sys, t: nat) {
    && !OnOtaEvent(A.PcOf(arb, t))
    && !Suspending(O.PcOf(arb.own, t)) && !O.PcOf(arb.own, t).ResumeCas?
  }

  lemma QuietIsInnocent(arb: A.Sys, t: nat)
    requires Quiet(arb, t)
    ensures Innocent(arb, t)
  {
  }

  lemma InnocentOnBus(own: O.Sys, t: nat, c: O.Choice)
    requires O.LocalInv(own, t)
    requires !Suspending(O.PcOf(own, t)) && !O.PcOf(own, t).ResumeCas?
    requires c.Start? ==> !c.call.Suspend? && !c.call.Resume?
    ensures var own' := O.Step(own, O.Action(t, c));
            && !Suspending(O.PcOf(own', t)) && !O.PcOf(own', t).ResumeCas?
            && (own'.word.state == O.Suspended <==> own.word.state == O.Suspended)
  {
  }

  // Positions on an OTA event are only reached by starting one.
  lemma OtaEventsAreStarted(arb: A.Sys, a: A.Action)
    requires A.PcInv(arb, A.PcOf(arb, a.thread))
    requires OnOtaEvent(A.PcOf(A.Step(arb, a), a.thread))
    ensures OnOtaEvent(A.PcOf(arb, a.thread)) || Reserved(a.choice)
  {
    hide O.Step;
    hide A.PolicyResult;
    hide SamePolicyFields;
    hide NextFields;
    hide A.AcquireNext;
    hide A.BeginNext;
    hide A.PendingCall;
    hide A.AfterOwn;
    hide A.GoRoute;
    hide A.AcquireSeen;
    var pc, own := A.PcOf(arb, a.thread), O.PcOf(arb.own, a.thread);
    AwayFromEvents(arb, a.thread, pc, a.choice.Go? && a.choice.ok);
    if own.Returned? && A.Waiting(pc) {
      AnswersAwayFromEvents(pc, own.result, own.got);
    }
    if a.choice.Start? && a.choice.call.DapAcquire? {
      AcquireAwayFromEvents(arb, a.choice.call.owner, a.choice.call.authenticated, false);
    }
  }

  lemma AwayFromEvents(arb: A.Sys, t: nat, pc: A.Pc, ok: bool)
    ensures OnOtaEvent(A.AcquireNext(arb, pc)) || OnOtaEvent(A.BeginNext(arb, pc)) ==> OnOtaEvent(pc)
    ensures A.PendingCall(pc).Some? ==> !OnOtaEvent(A.PendingCall(pc).value.target)
    ensures A.InRoute(A.PcOf(arb, t)) ==> !OnOtaEvent(A.PcOf(A.GoRoute(arb, t, ok), t))
  {
    hide A.PolicyResult;
    hide SamePolicyFields;
    hide O.Step;
  }

  lemma AnswersAwayFromEvents(pc: A.Pc, r: O.Result, got: O.Yielded)
    requires A.Waiting(pc)
    ensures !OnOtaEvent(A.AfterOwn(pc, r, got))
  {
  }

  lemma AcquireAwayFromEvents(arb: A.Sys, owner: O.Owner, authenticated: bool, retried: bool)
    ensures !OnOtaEvent(A.AcquireSeen(arb, owner, authenticated, retried))
  {
    hide A.PolicyResult;
  }

  // Other business leaves the OTA state of the word, and whether the bus is suspended, alone.
  lemma InnocentStep(arb: A.Sys, a: A.Action)
    requires A.Inv(arb) && Innocent(arb, a.thread) && !Reserved(a.choice)
    ensures var arb' := A.Step(arb, a);
            && Innocent(arb', a.thread)
            && arb'.mode.ota == arb.mode.ota && arb'.mode.initialized == arb.mode.initialized
            && (BusSuspended(arb') <==> BusSuspended(arb))
  {
    var arb', t := A.Step(arb, a), a.thread;
    assert A.PcInv(arb, A.PcOf(arb, t)) && O.LocalInv(arb.own, t);
    hide A.Step;
    hide O.Step;
    hide A.PcInv;
    InnocentOnMode(arb, a);
    A.StepOnOwnership(arb, a);
    if arb'.own != arb.own {
      var c: O.Choice :| arb'.own == O.Step(arb.own, O.Action(t, c)) &&
        (c.Start? && (c.call.Suspend? || c.call.Resume?) ==> a.choice == A.OwnStart(c.call));
      InnocentOnBus(arb.own, t, c);
    }
    if OnOtaEvent(A.PcOf(arb', t)) {
      OtaEventsAreStarted(arb, a);
    }
  }

  lemma InnocentOnMode(arb: A.Sys, a: A.Action)
    requires A.LogInv(arb) && A.PcInv(arb, A.PcOf(arb, a.thread)) && !OnOtaEvent(A.PcOf(arb, a.thread))
    ensures A.Step(arb, a).mode.ota == arb.mode.ota && A.Step(arb, a).mode.initialized == arb.mode.initialized
  {
    hide A.Step;
    hide A.PcInv;
    hide NextFields;
    A.StepMoves(arb, a);
    A.OkMeansCommitted(arb, a);
    var arb' := A.Step(arb, a);
    if arb'.log != arb.log {
      var last := arb'.log[|arb.log|];
      if last.cause.ByEvent? {
        EventTouches(arb.mode, last.cause.event);
      }
    }
  }

  // ---------------------------------------------------------------- the holder's own calls

  function Source(event: Event): Ota { if event.OtaStarted? then Idle else M.Receiving }

  function Target(event: Event): Ota {
    if event.OtaStarted? then M.Receiving else if event.OtaCommitted? then ReadyToReboot else Idle
  }

  predicate Stepwise(event: Event) {
    event.OtaStarted? || event.OtaFailed? || event.OtaAborted? || event.OtaCommitted?
  }

  // A mode event of thread `t`, under way or done; its outcome is never in doubt.
  predicate Emitting(arb: A.Sys, t: nat, event: Event) {
    && O.Resting(O.PcOf(arb.own, t))
    && (var pc := A.PcOf(arb, t);
        || (pc.TransitionCas? && pc.event == event && arb.mode.ota == Source(event))
        || (pc == A.TransitionDone(A.TransitionOk) && arb.mode.ota == Target(event)))
  }

  // A suspension under way or done: OK means suspended, anything else means not.
  predicate SuspendingBus(arb: A.Sys, t: nat) {
    && A.Resting(A.PcOf(arb, t))
    && match O.PcOf(arb.own, t) {
         case SuspendCas(_) => !BusSuspended(arb)
         case ReleasePins(_, target, r) => target == O.Suspended && r == O.Ok && !BusSuspended(arb)
         case ReleaseStore(_, target, r) =>
           ((target == O.Suspended && r == O.Ok) || (target == O.Offline && r == O.IsOffline)) && !BusSuspended(arb)
         case Returned(r, _) => r == O.Ok <==> BusSuspended(arb)
         case _ => false
       }
  }

  // A resumption under way or done; its outcome is never in doubt.
  predicate ResumingBus(arb: A.Sys, t: nat) {
    && A.Resting(A.PcOf(arb, t))
    && match O.PcOf(arb.own, t) {
         case ResumeCas(_) => BusSuspended(arb)
         case Returned(r, _) => r == O.Ok && !BusSuspended(arb)
         case _ => false
       }
  }

  lemma SourceAllows(f: Fields, event: Event)
    requires Stepwise(event)
    ensures f.ota == Source(event) ==>
              && NextFields(f, event).Some? && NextFields(f, event).value.ota == Target(event)
              && NextFields(f, event).value.initialized == f.initialized
  {
    hide Counted;
    if f.ota == Source(event) {
      CountTouches(f, SetByEvent(f, event).value, event);
    }
  }

  lemma EmitStarts(arb: A.Sys, t: nat, event: Event)
    requires Quiet(arb, t) && arb.mode.initialized && Stepwise(event) && arb.mode.ota == Source(event)
    ensures var arb' := A.Step(arb, A.Action(t, A.Start(A.Transition(event))));
            Emitting(arb', t, event) && arb'.mode == arb.mode && arb'.own == arb.own
  {
    hide NextFields;
    hide O.Step;
    SourceAllows(arb.mode, event);
  }

  lemma EmitAdvances(arb: A.Sys, a: A.Action, event: Event)
    requires A.Inv(arb) && Emitting(arb, a.thread, event) && Stepwise(event) && arb.mode.initialized
    requires a.choice.Go? || a.choice.OwnAdvance?
    ensures var arb' := A.Step(arb, a);
            Emitting(arb', a.thread, event) && arb'.mode.initialized && arb'.own.word == arb.own.word
  {
    hide NextFields;
    hide A.PolicyResult;
    hide SamePolicyFields;
    assert A.PcInv(arb, A.PcOf(arb, a.thread));
    SourceAllows(arb.mode, event);
  }

  lemma BusStarts(arb: A.Sys, t: nat, request: O.Call)
    requires Quiet(arb, t)
    requires (request.Suspend? && !BusSuspended(arb)) || (request.Resume? && BusSuspended(arb))
    ensures var arb' := A.Step(arb, A.Action(t, A.OwnStart(request)));
            && (if request.Suspend? then SuspendingBus(arb', t) else ResumingBus(arb', t))
            && arb'.mode == arb.mode && arb'.own.word == arb.own.word
  {
  }

  lemma SuspendAdvances(arb: A.Sys, a: A.Action)
    requires A.Inv(arb) && SuspendingBus(arb, a.thread)
    requires a.choice.Go? || a.choice.OwnAdvance?
    ensures var arb' := A.Step(arb, a); SuspendingBus(arb', a.thread) && arb'.mode == arb.mode
  {
    assert O.LocalInv(arb.own, a.thread);
    if a.choice.Go? {
      RestsOn(arb, a);
    }
  }

  lemma ResumeAdvances(arb: A.Sys, a: A.Action)
    requires A.Inv(arb) && ResumingBus(arb, a.thread)
    requires a.choice.Go? || a.choice.OwnAdvance?
    ensures var arb' := A.Step(arb, a); ResumingBus(arb', a.thread) && arb'.mode == arb.mode
  {
    assert O.LocalInv(arb.own, a.thread);
    if a.choice.Go? {
      RestsOn(arb, a);
    }
  }

  // A resting thread has nothing to go on with.
  lemma RestsOn(arb: A.Sys, a: A.Action)
    requires A.Resting(A.PcOf(arb, a.thread)) && a.choice.Go?
    ensures var arb' := A.Step(arb, a);
            && A.PcOf(arb', a.thread) == A.PcOf(arb, a.thread)
            && arb'.own == arb.own && arb'.mode == arb.mode
  {
    hide O.Step;
  }

  lemma QuietStays(arb: A.Sys, a: A.Action)
    requires Quiet(arb, a.thread) && (a.choice.Go? || a.choice.OwnAdvance?)
    ensures var arb' := A.Step(arb, a);
            Quiet(arb', a.thread) && arb'.mode == arb.mode && arb'.own.word == arb.own.word
  {
    if a.choice.Go? {
      RestsOn(arb, a);
    }
  }

  lemma OthersStay(arb: A.Sys, a: A.Action, u: nat)
    requires u != a.thread
    ensures A.PcOf(A.Step(arb, a), u) == A.PcOf(arb, u)
    ensures O.PcOf(A.Step(arb, a).own, u) == O.PcOf(arb.own, u)
  {
    hide A.Step;
    hide O.Step;
    A.StepMovesOneThread(arb, a, u);
    A.StepOnOwnership(arb, a);
    if A.Step(arb, a).own != arb.own {
      var c: O.Choice :| A.Step(arb, a).own == O.Step(arb.own, O.Action(a.thread, c));
      O.StepMovesOneThread(arb.own, O.Action(a.thread, c), u);
    }
  }

  lemma ArbKeepsInv(arb: A.Sys, a: A.Action)
    requires A.Inv(arb)
    ensures A.Inv(A.Step(arb, a))
  {
    hide A.Step;
    A.StepKeepsHistory(arb, a);
    A.StepKeepsOwnership(arb, a);
    A.StepKeepsRoute(arb, a);
  }

  // ---------------------------------------------------------------- the joint invariant

  /** The four states agree: session, mode word, bus and UART. */
  predicate Agree(s: Sys) {
    match s.session.phase
    case Inactive => s.arb.mode.ota == Idle && !BusSuspended(s.arb) && !s.uart
    case Receiving => s.arb.mode.ota == M.Receiving && BusSuspended(s.arb) && s.uart
    case Committed => s.arb.mode.ota == ReadyToReboot && BusSuspended(s.arb) && s.uart
  }

  // The call passed its checks on the record `seen`.
  ghost predicate Planned(seen: Session, call: Call, caller: Caller, size: nat, room: nat) {
    exists env :: Plan(seen, call, env) == Decided(Fresh, Prepare(caller, size, room)) && seen == Fresh
  }

  ghost predicate Preparing(s: Sys, call: Call, caller: Caller, size: nat, room: nat) {
    && call.Begin? && s.session == Fresh && 0 < size <= room < 0x1_0000_0000 && Authorized(caller, true)
    && Planned(s.seen, call, caller, size, room)
  }

  // The call may end with this status and this record.
  ghost predicate Reaches(seen: Session, session: Session, call: Call, status: Status) {
    exists w :: Serve(seen, call, w) == Served(session, status)
  }

  // Where the holder of the mutex stands, the four states are as they must be there.
  ghost predicate At(s: Sys, t: nat) {
    match PcOf(s, t)
    case BeginMode(call, caller, size, room) =>
      && Preparing(s, call, caller, size, room) && !s.uart
      && Emitting(s.arb, t, OtaStarted) && !BusSuspended(s.arb)
    case BeginBus(call, caller, size, room) =>
      && Preparing(s, call, caller, size, room) && !s.uart
      && s.arb.mode.ota == M.Receiving && SuspendingBus(s.arb, t)
    case BeginUndo(call, status) =>
      call.Begin? && Reaches(s.seen, s.session, call, status) && s.session == Fresh && !s.uart
          && Emitting(s.arb, t, OtaFailed) && !BusSuspended(s.arb)
    case BeginUart(call, caller, size, room) =>
      && Preparing(s, call, caller, size, room) && !s.uart
      && s.arb.mode.ota == M.Receiving && BusSuspended(s.arb) && Quiet(s.arb, t)
    case BeginFlash(call, caller, size, room) =>
      && Preparing(s, call, caller, size, room) && s.uart
      && s.arb.mode.ota == M.Receiving && BusSuspended(s.arb) && Quiet(s.arb, t)
    case RestoreMode(call, event, onRestored, onFailure) =>
      && s.session == Fresh && Reaches(s.seen, s.session, call, onRestored)
      && (call.Commit? ==> onRestored != Ok && onFailure != Ok)
      && (event.OtaFailed? || event.OtaAborted?) && Emitting(s.arb, t, event) && BusSuspended(s.arb)
    case RestoreBus(call, onRestored, onFailure) =>
      && s.session == Fresh && Reaches(s.seen, s.session, call, onRestored)
      && (call.Commit? ==> onRestored != Ok && onFailure != Ok)
      && s.arb.mode.ota == Idle && ResumingBus(s.arb, t)
    case RestoreUart(call, onRestored) =>
      && s.session == Fresh && Reaches(s.seen, s.session, call, onRestored) && (call.Commit? ==> onRestored != Ok)
      && s.arb.mode.ota == Idle && !BusSuspended(s.arb) && Quiet(s.arb, t)
    case CommitMode(call) =>
      && call.Commit? && Reaches(s.seen, s.session, call, Ok) && s.session.phase == Committed && s.uart
      && Emitting(s.arb, t, OtaCommitted) && BusSuspended(s.arb)
    case Unlocking(call, status) =>
      Agree(s) && Reaches(s.seen, s.session, call, status) && Quiet(s.arb, t)
          && (call.Commit? && status == Ok ==> s.session.phase == Committed)
    case _ => false
  }

  predicate Critical(pc: Pc) { !Resting(pc) && !pc.Locking? }

  predicate CommitReturned(pc: Pc) { pc.Done? && pc.call.Commit? && pc.status == Ok }

  ghost predicate ThreadsInv(s: Sys) {
    && (forall u: nat :: s.mutex == Some(u) || Innocent(s.arb, u))
    && (forall u: nat :: PcOf(s, u).Locking? ==> Quiet(s.arb, u))
    && (forall u: nat :: Critical(PcOf(s, u)) ==> s.mutex == Some(u))
    && (forall u: nat :: CommitReturned(PcOf(s, u)) ==> s.session.phase == Committed)
  }

  // The record after the finished calls.
  function Last(served: seq<Exchange>): Session {
    if served == [] then Fresh else served[|served| - 1].after
  }

  // The exchange is one step of the call-level specification.
  ghost predicate Specified(e: Exchange) {
    Reaches(e.before, e.after, e.call, e.status)
  }

  ghost predicate Chained(served: seq<Exchange>) {
    && (forall i :: 0 <= i < |served| ==> Specified(served[i]))
    && (forall i :: 0 <= i < |served| ==> served[i].before == Last(served[..i]))
  }

  ghost predicate Inv(s: Sys) {
    && Chained(s.served) && Last(s.served) == (if s.mutex.None? then s.session else s.seen)
    && A.Inv(s.arb) && s.arb.mode.initialized && SessionInv(s.session)
    && ThreadsInv(s)
    && (if s.mutex.None? then Agree(s) else At(s, s.mutex.value))
  }

  // A step by `t` that touched nobody else.
  ghost predicate OnlyThread(s: Sys, s': Sys, t: nat) {
    && (forall u: nat :: u != t ==>
          && PcOf(s', u) == PcOf(s, u)
          && A.PcOf(s'.arb, u) == A.PcOf(s.arb, u) && O.PcOf(s'.arb.own, u) == O.PcOf(s.arb.own, u))
    && (s.session.phase == Committed ==> s'.session.phase == Committed)
  }

  lemma InnocentDepends(arb: A.Sys, arb': A.Sys, u: nat)
    requires A.PcOf(arb', u) == A.PcOf(arb, u) && O.PcOf(arb'.own, u) == O.PcOf(arb.own, u)
    ensures Innocent(arb', u) == Innocent(arb, u) && Quiet(arb', u) == Quiet(arb, u)
  {
  }

  // The holder, or the thread that just became it, moves on inside the mutex.
  lemma HolderMoves(s: Sys, s': Sys, t: nat)
    requires ThreadsInv(s) && OnlyThread(s, s', t)
    requires s.mutex.None? || s.mutex == Some(t)
    requires s'.mutex == Some(t) && Critical(PcOf(s', t))
    ensures ThreadsInv(s')
  {
    forall u: nat | u != t
      ensures Innocent(s'.arb, u) == Innocent(s.arb, u) && Quiet(s'.arb, u) == Quiet(s.arb, u)
    {
      InnocentDepends(s.arb, s'.arb, u);
    }
    hide Innocent;
    hide Quiet;
    forall u: nat
      ensures s'.mutex == Some(u) || Innocent(s'.arb, u)
      ensures PcOf(s', u).Locking? ==> Quiet(s'.arb, u)
      ensures Critical(PcOf(s', u)) ==> s'.mutex == Some(u)
    {
      if u != t {
        assert s.mutex == Some(u) || Innocent(s.arb, u);
        assert PcOf(s, u).Locking? ==> Quiet(s.arb, u);
        assert Critical(PcOf(s, u)) ==> s.mutex == Some(u);
      }
    }
  }

  lemma EmitOthers(s: Sys, t: nat, event: Event, pc: Pc)
    ensures OnlyThread(s, EmitEvent(s, t, event, pc), t)
  {
    var a := A.Action(t, A.Start(A.Transition(event)));
    hide A.Step;
    forall u: nat | u != t
      ensures A.PcOf(A.Step(s.arb, a), u) == A.PcOf(s.arb, u)
      ensures O.PcOf(A.Step(s.arb, a).own, u) == O.PcOf(s.arb.own, u)
    {
      OthersStay(s.arb, a, u);
    }
  }

  lemma BusOthers(s: Sys, t: nat, request: O.Call, pc: Pc)
    ensures OnlyThread(s, CallBus(s, t, request, pc), t)
  {
    var a := A.Action(t, A.OwnStart(request));
    hide A.Step;
    forall u: nat | u != t
      ensures A.PcOf(A.Step(s.arb, a), u) == A.PcOf(s.arb, u)
      ensures O.PcOf(A.Step(s.arb, a).own, u) == O.PcOf(s.arb.own, u)
    {
      OthersStay(s.arb, a, u);
    }
  }

  // Emitting an event keeps everything but the thread's position.
  lemma EmitKeeps(s: Sys, t: nat, event: Event, pc: Pc)
    requires A.Inv(s.arb) && s.arb.mode.initialized && Quiet(s.arb, t)
    requires Stepwise(event) && s.arb.mode.ota == Source(event)
    ensures var s' := EmitEvent(s, t, event, pc);
            && OnlyThread(s, s', t) && A.Inv(s'.arb) && Emitting(s'.arb, t, event)
            && s'.arb.mode == s.arb.mode && s'.arb.own == s.arb.own
            && s' == s.(arb := s'.arb, pcs := s'.pcs) && PcOf(s', t) == pc
  {
    hide A.Step;
    EmitOthers(s, t, event, pc);
    EmitStarts(s.arb, t, event);
    ArbKeepsInv(s.arb, A.Action(t, A.Start(A.Transition(event))));
  }

  lemma BusKeeps(s: Sys, t: nat, request: O.Call, pc: Pc)
    requires A.Inv(s.arb) && Quiet(s.arb, t)
    requires (request.Suspend? && !BusSuspended(s.arb)) || (request.Resume? && BusSuspended(s.arb))
    ensures var s' := CallBus(s, t, request, pc);
            && OnlyThread(s, s', t) && A.Inv(s'.arb)
            && (if request.Suspend? then SuspendingBus(s'.arb, t) else ResumingBus(s'.arb, t))
            && s'.arb.mode == s.arb.mode && s' == s.(arb := s'.arb, pcs := s'.pcs) && PcOf(s', t) == pc
  {
    hide A.Step;
    BusOthers(s, t, request, pc);
    BusStarts(s.arb, t, request);
    ArbKeepsInv(s.arb, A.Action(t, A.OwnStart(request)));
  }

  // What remains of the invariant when the holder moves.
  ghost predicate HolderInv(s: Sys, t: nat) {
    && A.Inv(s.arb) && s.arb.mode.initialized && SessionInv(s.session)
    && s.mutex == Some(t) && At(s, t)
    && Chained(s.served) && Last(s.served) == s.seen
  }

  lemma OnlyThreadFrom(s: Sys, s1: Sys, s2: Sys, t: nat)
    requires s1.arb == s.arb && s1.pcs == s.pcs && (s.session.phase == Committed ==> s1.session.phase == Committed)
    requires OnlyThread(s1, s2, t)
    ensures OnlyThread(s, s2, t)
  {
  }

  // The event a decision emits and the position it leads to.
  function EventOf(d: Decision): Event
    requires !d.Finish?
  {
    match d
    case Prepare(_, _, _) => OtaStarted
    case Restore(event, _, _) => event
    case Complete => OtaCommitted
  }

  function NextPc(call: Call, d: Decision): Pc {
    match d
    case Finish(status) => Unlocking(call, status)
    case Prepare(caller, size, room) => BeginMode(call, caller, size, room)
    case Restore(event, onRestored, onFailure) => RestoreMode(call, event, onRestored, onFailure)
    case Complete => CommitMode(call)
  }

  lemma EnterEmits(s: Sys, s1: Sys, t: nat, call: Call, d: Decided)
    requires Inv(s) && s.mutex.None? && Quiet(s.arb, t) && SessionInv(d.session)
    requires Consistent(s.session, d) && !d.decision.Finish?
    requires s1 == s.(session := d.session, mutex := Some(t), seen := s.session)
    ensures var s' := EmitEvent(s1, t, EventOf(d.decision), NextPc(call, d.decision));
            && OnlyThread(s, s', t) && A.Inv(s'.arb) && Emitting(s'.arb, t, EventOf(d.decision))
            && s'.arb.mode == s.arb.mode && s'.arb.own == s.arb.own
            && s' == s1.(arb := s'.arb, pcs := s'.pcs) && PcOf(s', t) == NextPc(call, d.decision)
  {
    hide A.Step;
    hide A.Inv;
    hide SessionInv;
    hide Emitting;
    hide ThreadsInv;
    hide Chained;
    EmitKeeps(s1, t, EventOf(d.decision), NextPc(call, d.decision));
    OnlyThreadFrom(s, s1, EmitEvent(s1, t, EventOf(d.decision), NextPc(call, d.decision)), t);
  }

  lemma EnterFinishes(s: Sys, s1: Sys, t: nat, call: Call, d: Decided, status: Status)
    requires Inv(s) && s.mutex.None? && Quiet(s.arb, t) && SessionInv(d.session) && Consistent(s.session, d)
    requires d.decision == Finish(status) && Reaches(s.session, d.session, call, status) && (call.Commit? ==> status != Ok)
    requires s1 == s.(session := d.session, mutex := Some(t), seen := s.session)
    ensures var s' := Goto(s1, t, Unlocking(call, status)); HolderInv(s', t) && OnlyThread(s, s', t)
  {
    hide A.Inv;
    hide SessionInv;
    hide Quiet;
    hide Reaches;
    hide Chained;
    hide ThreadsInv;
  }

  lemma EnterArrives(s: Sys, s1: Sys, t: nat, call: Call, d: Decided)
    requires Inv(s) && s.mutex.None? && Quiet(s.arb, t) && SessionInv(d.session)
    requires Consistent(s.session, d) && !d.decision.Finish?
    requires match d.decision
             case Finish(_) => true
             case Prepare(caller, size, room) => call.Begin? && Planned(s.session, call, caller, size, room)
             case Restore(_, onRestored, onFailure) =>
               Reaches(s.session, d.session, call, onRestored) && (call.Commit? ==> onRestored != Ok && onFailure != Ok)
             case Complete => call.Commit? && Reaches(s.session, d.session, call, Ok)
    requires s1 == s.(session := d.session, mutex := Some(t), seen := s.session)
    ensures var s' := EmitEvent(s1, t, EventOf(d.decision), NextPc(call, d.decision));
            HolderInv(s', t) && OnlyThread(s, s', t)
  {
    hide A.Step;
    hide A.Inv;
    hide SessionInv;
    hide Emitting;
    hide ThreadsInv;
    hide Chained;
    hide Reaches;
    hide Planned;
    hide Quiet;
    EnterEmits(s, s1, t, call, d);
    hide OnlyThread;
    hide EmitEvent;
  }

  lemma EnterKeeps(s: Sys, t: nat, call: Call, env: Env)
    requires Inv(s) && s.mutex.None? && PcOf(s, t) == Locking(call)
    ensures var s' := Enter(s, t, call, env); HolderInv(s', t) && OnlyThread(s, s', t)
  {
    hide A.Step;
    hide Plan;
    hide SessionInv;
    hide A.Inv;
    hide Quiet;
    hide Emitting;
    PlanKeepsSession(s.session, call, env);
    PlanReaches(s.session, call, env);
    hide Reaches;
    hide Planned;
    hide Chained;
    hide Consistent;
    hide HolderInv;
    hide OnlyThread;
    hide EmitEvent;
    var d := Plan(s.session, call, env);
    var s1 := s.(session := d.session, mutex := Some(t), seen := s.session);
    assert Quiet(s.arb, t);
    hide ThreadsInv;
    if d.decision.Finish? {
      EnterFinishes(s, s1, t, call, d, d.decision.status);
    } else {
      EnterArrives(s, s1, t, call, d);
    }
  }

  lemma PlanReaches(x: Session, call: Call, env: Env)
    requires SessionInv(x)
    ensures var d := Plan(x, call, env);
            match d.decision
            case Finish(status) => Reaches(x, d.session, call, status)
            case Prepare(caller, size, room) => Planned(x, call, caller, size, room)
            case Restore(_, onRestored, _) => Reaches(x, d.session, call, onRestored)
            case Complete => Reaches(x, d.session, call, Ok)
  {
    PlanKeepsSession(x, call, env);
    hide Plan;
    hide Opened;
    hide SessionInv;
    var d := Plan(x, call, env);
    if !d.decision.Prepare? {
      assert Serve(x, call, World(env, None)).session == d.session;
    }
  }

  // A begin that is refused after its checks, or completed, is a specified one.
  lemma BeginReaches(x: Session, call: Call, caller: Caller, size: nat, room: nat, refusal: Refusal)
    requires Planned(x, call, caller, size, room)
    ensures Reaches(x, Fresh, call, RefusalStatus(refusal))
    ensures Reaches(x, Opened(Fresh, caller, size, room), call, Ok)
  {
    hide Plan;
    hide Opened;
    var env :| Plan(x, call, env) == Decided(Fresh, Prepare(caller, size, room)) && x == Fresh;
    assert Serve(x, call, World(env, Some(refusal))) == Served(Fresh, RefusalStatus(refusal));
    assert Serve(x, call, World(env, None)) == Served(Opened(Fresh, caller, size, room), Ok);
  }

  lemma AfterEventKeeps(s: Sys, t: nat)
    requires HolderInv(s, t) && InEvent(PcOf(s, t)) && A.PcOf(s.arb, t).TransitionDone?
    ensures var s' := AfterEvent(s, t, PcOf(s, t), A.PcOf(s.arb, t).result.TransitionOk?);
            HolderInv(s', t) && OnlyThread(s, s', t)
  {
    hide A.Step;
    hide SessionInv;
    hide A.Inv;
    hide Reaches;
    hide Planned;
    hide Chained;
    match PcOf(s, t) {
      case BeginMode(call, caller, size, room) => BusKeeps(s, t, O.Suspend, BeginBus(call, caller, size, room));
      case RestoreMode(call, _, onRestored, onFailure) =>
        BusKeeps(s, t, O.Resume, RestoreBus(call, onRestored, onFailure));
      case _ =>
    }
  }

  lemma AfterBusKeeps(s: Sys, t: nat)
    requires HolderInv(s, t) && InBus(PcOf(s, t)) && O.PcOf(s.arb.own, t).Returned?
    ensures var s' := AfterBus(s, t, PcOf(s, t), O.PcOf(s.arb.own, t).result);
            HolderInv(s', t) && OnlyThread(s, s', t)
  {
    hide A.Step;
    hide SessionInv;
    hide A.Inv;
    hide Reaches;
    hide Planned;
    hide Chained;
    var pc, r := PcOf(s, t), O.PcOf(s.arb.own, t).result;
    if pc.BeginBus? && r != O.Ok {
      BeginReaches(s.seen, pc.call, pc.caller, pc.size, pc.room, if r == O.Busy then BusBusy else BusFailed);
      EmitKeeps(s, t, OtaFailed, BeginUndo(pc.call, if r == O.Busy then InvalidState else InternalError));
    }
  }

  lemma UartKeeps(s: Sys, t: nat, env: Env, outcome: UartOutcome)
    requires HolderInv(s, t) && PcOf(s, t).BeginUart?
    ensures var s' := Local(s, t, env, outcome); HolderInv(s', t) && OnlyThread(s, s', t)
  {
    hide A.Step;
    hide A.Inv;
    hide SessionInv;
    hide Reaches;
    hide Planned;
    hide Chained;
    hide Emitting;
    var pc := PcOf(s, t);
    if !outcome.Suspended? {
      var s1 := s.(uart := s.uart || outcome.NotDrained?);
      var next := RestoreMode(pc.call, OtaFailed, Busy, Busy);
      BeginReaches(s.seen, pc.call, pc.caller, pc.size, pc.room, UartFailed);
      EmitKeeps(s1, t, OtaFailed, next);
      OnlyThreadFrom(s, s1, EmitEvent(s1, t, OtaFailed, next), t);
    }
  }

  lemma FlashKeeps(s: Sys, t: nat, env: Env, outcome: UartOutcome)
    requires HolderInv(s, t) && PcOf(s, t).BeginFlash?
    ensures var s' := Local(s, t, env, outcome); HolderInv(s', t) && OnlyThread(s, s', t)
  {
    hide A.Step;
    hide A.Inv;
    hide SessionInv;
    hide Reaches;
    hide Planned;
    hide Chained;
    hide Emitting;
    hide Opened;
    var pc := PcOf(s, t);
    var refusal := if Authorized(pc.caller, env.authorized) then FlashFailed else LostAuthorization;
    BeginReaches(s.seen, pc.call, pc.caller, pc.size, pc.room, refusal);
    if !Authorized(pc.caller, env.authorized) || !env.flashed {
      EmitKeeps(s, t, OtaFailed, RestoreMode(pc.call, OtaFailed, RefusalStatus(refusal), RefusalStatus(refusal)));
    } else {
      OpenedKeepsSession(pc.caller, pc.size, pc.room);
    }
  }

  lemma LocalKeeps(s: Sys, t: nat, env: Env, outcome: UartOutcome)
    requires HolderInv(s, t) && !InEvent(PcOf(s, t)) && !InBus(PcOf(s, t)) && !PcOf(s, t).Unlocking?
    ensures var s' := Local(s, t, env, outcome); HolderInv(s', t) && OnlyThread(s, s', t)
  {
    hide A.Step;
    hide A.Inv;
    hide SessionInv;
    hide Reaches;
    hide Planned;
    hide Chained;
    if PcOf(s, t).BeginUart? {
      UartKeeps(s, t, env, outcome);
    } else if PcOf(s, t).BeginFlash? {
      FlashKeeps(s, t, env, outcome);
    }
  }

  lemma ChainGrows(served: seq<Exchange>, e: Exchange)
    requires Chained(served) && e.before == Last(served) && Specified(e)
    ensures Chained(served + [e]) && Last(served + [e]) == e.after
  {
    hide Reaches;
    var longer := served + [e];
    forall i | 0 <= i < |longer|
      ensures Specified(longer[i]) && longer[i].before == Last(longer[..i])
    {
      if i < |served| {
        assert longer[..i] == served[..i];
      } else {
        assert longer[..i] == served;
      }
    }
  }

  lemma UnlockKeeps(s: Sys, t: nat, env: Env, outcome: UartOutcome)
    requires Inv(s) && s.mutex == Some(t) && PcOf(s, t).Unlocking?
    ensures Inv(Local(s, t, env, outcome))
  {
    hide A.Inv;
    hide SessionInv;
    hide Reaches;
    hide Planned;
    var s' := Local(s, t, env, outcome);
    var pc := PcOf(s, t);
    ChainGrows(s.served, Exchange(s.seen, pc.call, pc.status, s.session));
    hide Chained;
    QuietIsInnocent(s.arb, t);
    hide Innocent;
    hide Quiet;
    forall u: nat
      ensures Innocent(s'.arb, u)
      ensures PcOf(s', u).Locking? ==> Quiet(s'.arb, u)
      ensures !Critical(PcOf(s', u))
      ensures CommitReturned(PcOf(s', u)) ==> s'.session.phase == Committed
    {
      if u != t {
        assert CommitReturned(PcOf(s, u)) ==> s.session.phase == Committed;
        assert PcOf(s', u) == PcOf(s, u);
        assert s.mutex == Some(u) || Innocent(s.arb, u);
        assert PcOf(s, u).Locking? ==> Quiet(s.arb, u);
        assert Critical(PcOf(s, u)) ==> s.mutex == Some(u);
      }
    }
  }

  lemma ProceedKeeps(s: Sys, t: nat, env: Env, outcome: UartOutcome)
    requires Inv(s)
    ensures Inv(Step(s, Proceed(t, env, outcome)))
  {
    hide Reaches;
    hide Planned;
    hide Chained;
    hide A.Step;
    hide A.Inv;
    hide SessionInv;
    hide At;
    hide AfterEvent;
    hide AfterBus;
    hide Local;
    var s', pc := Step(s, Proceed(t, env, outcome)), PcOf(s, t);
    if Critical(pc) {
      assert s.mutex == Some(t);
      if pc.Unlocking? {
        UnlockKeeps(s, t, env, outcome);
        return;
      } else if InEvent(pc) {
        if A.PcOf(s.arb, t).TransitionDone? {
          AfterEventKeeps(s, t);
        }
      } else if InBus(pc) {
        if O.PcOf(s.arb.own, t).Returned? {
          AfterBusKeeps(s, t);
        }
      } else {
        LocalKeeps(s, t, env, outcome);
      }
      CriticalAt(s', t);
      HolderMoves(s, s', t);
    } else if pc.Locking? && s.mutex.None? {
      LocalEnters(s, t, env, outcome);
      EnterKeeps(s, t, pc.call, env);
      CriticalAt(s', t);
      HolderMoves(s, s', t);
    } else {
      LocalIdles(s, t, env, outcome);
    }
  }

  lemma CriticalAt(s: Sys, t: nat)
    requires At(s, t)
    ensures Critical(PcOf(s, t))
  {
  }

  lemma LocalEnters(s: Sys, t: nat, env: Env, outcome: UartOutcome)
    requires PcOf(s, t).Locking? && s.mutex.None?
    ensures Local(s, t, env, outcome) == Enter(s, t, PcOf(s, t).call, env)
  {
  }

  lemma LocalIdles(s: Sys, t: nat, env: Env, outcome: UartOutcome)
    requires !Critical(PcOf(s, t)) && (PcOf(s, t).Locking? ==> s.mutex.Some?)
    ensures Local(s, t, env, outcome) == s
  {
  }

  // ---------------------------------------------------------------- everybody else

  // The holder's position depends on its own threads of control, the OTA state and the bus.
  lemma AtDepends(s: Sys, s': Sys, h: nat)
    requires At(s, h) && s' == s.(arb := s'.arb)
    requires A.PcOf(s'.arb, h) == A.PcOf(s.arb, h) && O.PcOf(s'.arb.own, h) == O.PcOf(s.arb.own, h)
    requires s'.arb.mode.ota == s.arb.mode.ota && (BusSuspended(s'.arb) <==> BusSuspended(s.arb))
    ensures At(s', h)
  {
    hide Reaches;
    hide Planned;
  }

  lemma OtherThreadKeeps(s: Sys, a: A.Action)
    requires Inv(s) && MayRun(s, a) && s.mutex != Some(a.thread)
    ensures Inv(s.(arb := A.Step(s.arb, a)))
  {
    hide Reaches;
    hide Planned;
    hide Chained;
    hide A.Step;
    hide SessionInv;
    hide Quiet;
    hide At;
    hide Innocent;
    var s', t := s.(arb := A.Step(s.arb, a)), a.thread;
    assert Innocent(s.arb, t);
    InnocentStep(s.arb, a);
    ArbKeepsInv(s.arb, a);
    hide A.Inv;
    forall u: nat | u != t
      ensures A.PcOf(s'.arb, u) == A.PcOf(s.arb, u) && O.PcOf(s'.arb.own, u) == O.PcOf(s.arb.own, u)
      ensures Innocent(s'.arb, u) == Innocent(s.arb, u) && Quiet(s'.arb, u) == Quiet(s.arb, u)
    {
      OthersStay(s.arb, a, u);
      InnocentDepends(s.arb, s'.arb, u);
    }
    if PcOf(s, t).Locking? {
      assert Quiet(s.arb, t);
      QuietStays(s.arb, a);
    }
    forall u: nat
      ensures s'.mutex == Some(u) || Innocent(s'.arb, u)
      ensures PcOf(s', u).Locking? ==> Quiet(s'.arb, u)
    {
      if u != t {
        assert s.mutex == Some(u) || Innocent(s.arb, u);
        assert PcOf(s, u).Locking? ==> Quiet(s.arb, u);
      }
    }
    if s.mutex.Some? {
      AtDepends(s, s', s.mutex.value);
    }
  }

  lemma HolderRuns(s: Sys, a: A.Action)
    requires HolderInv(s, a.thread) && (a.choice.Go? || a.choice.OwnAdvance?)
    ensures HolderInv(s.(arb := A.Step(s.arb, a)), a.thread)
  {
    hide Reaches;
    hide Planned;
    hide Chained;
    hide A.Step;
    hide SessionInv;
    ArbKeepsInv(s.arb, a);
    var pc := PcOf(s, a.thread);
    if InEvent(pc) {
      var event := if pc.BeginMode? then OtaStarted
                   else if pc.BeginUndo? then OtaFailed
                   else if pc.RestoreMode? then pc.event else OtaCommitted;
      EmitAdvances(s.arb, a, event);
    } else if pc.BeginBus? {
      SuspendAdvances(s.arb, a);
    } else if pc.RestoreBus? {
      ResumeAdvances(s.arb, a);
    } else {
      QuietStays(s.arb, a);
    }
  }

  lemma OutsideKeeps(s: Sys, a: A.Action)
    requires Inv(s)
    ensures Inv(Step(s, Outside(a)))
  {
    hide Reaches;
    hide Planned;
    hide Chained;
    hide A.Step;
    hide A.Inv;
    hide SessionInv;
    hide At;
    if MayRun(s, a) {
      if s.mutex == Some(a.thread) {
        var s' := s.(arb := A.Step(s.arb, a));
        CriticalAt(s, a.thread);
        HolderRuns(s, a);
        forall u: nat | u != a.thread
          ensures A.PcOf(s'.arb, u) == A.PcOf(s.arb, u) && O.PcOf(s'.arb.own, u) == O.PcOf(s.arb.own, u)
        {
          OthersStay(s.arb, a, u);
        }
        HolderMoves(s, s', a.thread);
      } else {
        OtherThreadKeeps(s, a);
      }
    }
  }

  lemma InvokeKeeps(s: Sys, t: nat, call: Call)
    requires Inv(s)
    ensures Inv(Step(s, Invoke(t, call)))
  {
    hide Reaches;
    hide Planned;
    hide Chained;
    hide A.Inv;
    hide SessionInv;
    hide Innocent;
    hide Quiet;
    var s' := Step(s, Invoke(t, call));
    if Resting(PcOf(s, t)) && Quiet(s.arb, t) {
      if s.mutex.Some? {
        CriticalAt(s, s.mutex.value);
        AtMoves(s, s', s.mutex.value);
      }
      hide At;
      forall u: nat
        ensures PcOf(s', u).Locking? ==> Quiet(s'.arb, u)
        ensures Critical(PcOf(s', u)) ==> s'.mutex == Some(u)
        ensures CommitReturned(PcOf(s', u)) ==> s'.session.phase == Committed
        ensures s'.mutex == Some(u) || Innocent(s'.arb, u)
      {
        assert s.mutex == Some(u) || Innocent(s.arb, u);
        if u != t {
          assert CommitReturned(PcOf(s, u)) ==> s.session.phase == Committed;
          assert PcOf(s, u).Locking? ==> Quiet(s.arb, u);
          assert Critical(PcOf(s, u)) ==> s.mutex == Some(u);
        }
      }
    }
  }

  lemma AtMoves(s: Sys, s': Sys, h: nat)
    requires At(s, h) && s' == s.(pcs := s'.pcs) && PcOf(s', h) == PcOf(s, h)
    ensures At(s', h)
  {
    hide Reaches;
    hide Planned;
  }

  lemma BootedInv(s: Sys)
    requires Booted(s)
    ensures Inv(s)
  {
    A.BootedInv(s.arb);
  }

  lemma {:induction false} ExecKeepsInv(s: Sys, run: seq<Action>)
    requires Inv(s)
    ensures Inv(Exec(s, run))
    decreases run
  {
    if run != [] {
      hide Step;
      hide Inv;
      match run[0] {
        case Outside(a) => OutsideKeeps(s, a);
        case Invoke(t, call) => InvokeKeeps(s, t, call);
        case Proceed(t, env, outcome) => ProceedKeeps(s, t, env, outcome);
      }
      ExecKeepsInv(Step(s, run[0]), run[1..]);
    }
  }

  // ---------------------------------------------------------------- theorems

  /**
   For every run, with any authorization, flash, partition, bus and UART failures and any traffic
   from other threads: whenever the session mutex is free, session, mode word, bus and UART agree.
   */
  lemma StatesAgree(s: Sys, run: seq<Action>)
    requires Booted(s)
    ensures Exec(s, run).mutex.None? ==> Agree(Exec(s, run))
  {
    BootedInv(s);
    ExecKeepsInv(s, run);
  }

  /**
   Seen from its callers the manager is sequential: in the order in which the calls gave up the
   mutex, each one is a step of the call-level `Serve` on the record the one before it left.
   */
  lemma CallsAreAtomic(s: Sys, run: seq<Action>)
    requires Booted(s)
    ensures var s' := Exec(s, run);
            Chained(s'.served) && (s'.mutex.None? ==> s'.session == Last(s'.served))
  {
    BootedInv(s);
    ExecKeepsInv(s, run);
  }

  /** While an upload is open or committed, no operation is live and no step of anybody can begin one. */
  lemma NoOperationDuringUpdate(s: Sys, run: seq<Action>, next: Action)
    requires Booted(s) && Exec(s, run).session.phase != Inactive
    ensures BusSuspended(Exec(s, run).arb)
    ensures Exec(s, run).arb.own.live == {} && Exec(s, run + [next]).arb.own.live == {}
  {
    hide Step;
    hide Inv;
    hide A.Inv;
    BootedInv(s);
    ExecKeepsInv(s, run);
    ExecConcat(s, run, next);
    UpdateSuspends(Exec(s, run));
    SuspendedNextStep(Exec(s, run), next);
  }

  lemma UpdateSuspends(s: Sys)
    requires Inv(s) && s.session.phase != Inactive
    ensures A.Inv(s.arb) && BusSuspended(s.arb)
  {
    hide A.Inv;
    hide SessionInv;
  }

  lemma {:induction false} ExecConcat(s: Sys, run: seq<Action>, next: Action)
    ensures Exec(s, run + [next]) == Step(Exec(s, run), next)
    decreases run
  {
    hide Step;
    if run == [] {
      assert run + [next] == [next] && [next][1..] == [];
      assert Exec(Step(s, next), []) == Step(s, next);
    } else {
      assert (run + [next])[1..] == run[1..] + [next];
      ExecConcat(Step(s, run[0]), run[1..], next);
    }
  }

  lemma SuspendedBusBeginsNothing(own: O.Sys, t: nat, c: O.Choice)
    requires O.Inv(own) && own.word.state == O.Suspended
    ensures O.Step(own, O.Action(t, c)).live == {}
  {
    assert O.LocalInv(own, t);
  }

  lemma SuspendedArbBeginsNothing(arb: A.Sys, a: A.Action)
    requires A.Inv(arb) && BusSuspended(arb)
    ensures A.Step(arb, a).own.live == {}
  {
    hide A.Step;
    hide O.Step;
    A.StepOnOwnership(arb, a);
    if A.Step(arb, a).own != arb.own {
      var c: O.Choice :| A.Step(arb, a).own == O.Step(arb.own, O.Action(a.thread, c));
      SuspendedBusBeginsNothing(arb.own, a.thread, c);
    }
  }

  lemma SuspendedNextStep(s: Sys, a: Action)
    requires A.Inv(s.arb) && BusSuspended(s.arb)
    ensures s.arb.own.live == {} && Step(s, a).arb.own.live == {}
  {
    hide A.Step;
    hide Plan;
    forall inner: A.Action
      ensures A.Step(s.arb, inner).own.live == {}
    {
      SuspendedArbBeginsNothing(s.arb, inner);
    }
  }

  /**
   When a commit has returned OK, the image it committed is whole: its writes all came from the
   client that began, follow each other without gap or overlap, and are exactly the declared
   size, which fits the partition.
   */
  lemma CommittedImageIsWhole(s: Sys, run: seq<Action>, t: nat)
    requires Booted(s)
    requires CommitReturned(PcOf(Exec(s, run), t))
    ensures var x := Exec(s, run).session;
            x.phase == Committed && x.image.Some? && ImageOk(x.image.value)
  {
    BootedInv(s);
    ExecKeepsInv(s, run);
  }
}
