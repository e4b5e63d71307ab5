/**
 The concurrent half of `firmware/components/mode_state/mode_state.c`: mode events, route
 selection and the DAP admission transactions, interleaved with each other and with the
 ownership arbiter they call.

 The mode word appears as the record of `ModeWord`; packing is one-to-one, so comparing words
 and comparing records agree, and `PackedRuns` restates every run on the packed word.
 Each thread carries its own position here and, while it is inside an ownership call, its
 position in `Ownership`.
 */
module Arbitration {
  import O = Ownership
  import opened ModeWord
  import opened Options

  // ---------------------------------------------------------------- admission

  datatype DapResult = Allowed | Busy | Offline | Unauthenticated | InvalidState | InvalidArgument | StorageError

  // `dap_admission_for_control` up to its look at the current owner.
  function PolicyResult(f: Fields, owner: O.Owner, authenticated: bool, board: bool): DapResult {
    if !f.initialized then InvalidState
    else if owner == O.Network && !authenticated then Unauthenticated
    else if f.ota != Idle then Busy
    else match owner
      case Usb => if f.route == NetworkRoute then Busy else if !f.usb then Offline else Allowed
      case Network =>
        if (if board then f.shell else f.route == UsbRoute || (f.route == Auto && f.usb)) then Busy
        else if f.wifi != Online then Offline
        else Allowed
      case Diagnostic => if !f.usb then Offline else Allowed
  }

  // `airdap_dap_ownership_current`
  function CurrentOwner(w: O.Control): Option<O.Owner> {
    if w.state.Owned? then Some(w.state.owner) else None
  }

  predicate OwnerConflicts(w: O.Control, owner: O.Owner) {
    CurrentOwner(w).Some? && CurrentOwner(w).value != owner
  }

  // `dap_admission_for_control` complete, on the ownership word it loads.
  function Admission(f: Fields, owner: O.Owner, authenticated: bool, board: bool, w: O.Control): DapResult {
    var result := PolicyResult(f, owner, authenticated, board);
    if result == Allowed && OwnerConflicts(w, owner) then Busy else result
  }

  function FromOwnership(r: O.Result): DapResult {
    match r
    case Ok => Allowed
    case AlreadyOwner => Allowed
    case Busy => Busy
    case IsOffline => Offline
    case InvalidArgument => InvalidArgument
    case NotOwner => InvalidState
    case InvalidState => InvalidState
  }

  // ---------------------------------------------------------------- routes

  datatype RouteRequest = Select(route: Route) | Toggle | NetworkAutoToggle

  function SelectedRoute(f: Fields, request: RouteRequest): Route {
    match request
    case Select(route) => route
    case Toggle =>
      if f.route == UsbRoute || (f.route == Auto && f.usb) then NetworkRoute else UsbRoute
    case NetworkAutoToggle => if f.route == NetworkRoute then Auto else NetworkRoute
  }

  // ---------------------------------------------------------------- threads

  datatype StateResult = TransitionOk | InvalidTransition | NotInitialized

  /** A loaded mode word, with its place in the history of the word. */
  datatype Sample = Sample(at: nat, mode: Fields)

  /** What an operation transaction begins: a claim's operation or a board-control reservation. */
  datatype Kind = OnClaim(owner: O.Owner, claim: O.Claim) | Board

  function KindOwner(k: Kind): O.Owner { if k.Board? then O.Network else k.owner }

  datatype Call =
    | Transition(event: Event)
    | SetRoute(request: RouteRequest)
    | DapAcquire(owner: O.Owner, authenticated: bool)
    | BeginOperation(kind: Kind, authenticated: bool)

  datatype Pc =
    | Ready
    | TransitionDone(result: StateResult)
    | RouteDone(answer: DapResult)
    | Denied(answer: DapResult)
    | Admitted(kind: Kind, before: Sample, after: Sample)
    // the USB preemption counter still has to drop
    | Leaving(target: Pc)
    | TransitionLoad(event: Event)
    | TransitionCas(event: Event, current: Fields, next: Fields)
    | TransitionRevokeCall
    | TransitionRevoking
    | RouteReserving(request: RouteRequest)
    | RouteLoad(request: RouteRequest, operation: O.Operation)
    | RouteCheck(request: RouteRequest, operation: O.Operation, current: Fields)
    | RouteSave(operation: O.Operation, current: Fields, selected: Route)
    | RoutePublish(operation: O.Operation, current: Fields, selected: Route)
    | RouteEnd(operation: O.Operation, answer: DapResult)
    | AcquireLoad(owner: O.Owner, authenticated: bool, retried: bool)
    | AcquireAdmit(owner: O.Owner, authenticated: bool, retried: bool, before: Sample)
    | AcquirePreempt(authenticated: bool)
    | AcquireRevokeCall(authenticated: bool)
    | AcquireRevoking(authenticated: bool)
    | AcquireCall(owner: O.Owner, authenticated: bool, before: Sample)
    | Acquiring(owner: O.Owner, authenticated: bool, before: Sample)
    | AcquireSample(owner: O.Owner, authenticated: bool, before: Sample, claim: O.Claim)
    | AcquireReleaseCall(owner: O.Owner, authenticated: bool, after: Sample, claim: O.Claim)
    | AcquireReleasing(owner: O.Owner, authenticated: bool, after: Sample)
    | AcquireRecheck(owner: O.Owner, authenticated: bool, after: Sample)
    | BeginAdmit(kind: Kind, authenticated: bool, before: Sample)
    | BeginCall(kind: Kind, authenticated: bool, before: Sample)
    | Beginning(kind: Kind, authenticated: bool, before: Sample)
    | BeginSample(kind: Kind, authenticated: bool, before: Sample, operation: O.Operation)
    | BeginUndo(kind: Kind, authenticated: bool, after: Sample, operation: O.Operation)
    | BeginRecheck(kind: Kind, authenticated: bool, after: Sample)

  datatype Cause = Boot | ByEvent(event: Event) | ByRoute(route: Route)

  datatype Entry = Entry(mode: Fields, cause: Cause)

  /**
   `log` is the whole history of the mode word; `inflight` holds the threads counted by
   `usb_preemptions_inflight`; `stored` is the persisted route.
   */
  datatype Sys = Sys(own: O.Sys, mode: Fields, stored: Route, inflight: set<nat>, pcs: map<nat, Pc>, log: seq<Entry>)

  /** `Go(ok)`: the thread's next mode access; `ok` is a storage outcome or a weak compare-and-swap not failing. */
  datatype Choice = Start(call: Call) | Go(ok: bool) | OwnStart(request: O.Call) | OwnAdvance(ok: bool)

  datatype Action = Action(thread: nat, choice: Choice)

  function PcOf(s: Sys, t: nat): Pc {
    if t in s.pcs then s.pcs[t] else Ready
  }

  predicate Resting(pc: Pc) {
    pc.Ready? || pc.TransitionDone? || pc.RouteDone? || pc.Denied? || pc.Admitted?
  }

  function Goto(s: Sys, t: nat, pc: Pc): Sys {
    s.(pcs := s.pcs[t := pc])
  }

  function CallOwn(s: Sys, t: nat, call: O.Call, pc: Pc): Sys {
    s.(own := O.Step(s.own, O.Action(t, O.Start(call))), pcs := s.pcs[t := pc])
  }

  function Commit(s: Sys, t: nat, next: Fields, cause: Cause, pc: Pc): Sys {
    s.(mode := next, log := s.log + [Entry(next, cause)], pcs := s.pcs[t := pc])
  }

  function Load(s: Sys): Sample {
    Sample(if s.log == [] then 0 else |s.log| - 1, s.mode)
  }

  // After `init`, OTA initialisation (which bumps the USB/OTA epoch) and a successful `restore_dap_route`.
  predicate Booted(s: Sys) {
    && s.own == O.Init && s.inflight == {} && s.pcs == map[]
    && s.mode.usbOtaEpoch < 256
    && s.mode == BootFields.(usbOtaEpoch := s.mode.usbOtaEpoch, route := s.stored)
    && !s.stored.RouteUnused?
    && s.log == [Entry(s.mode, Boot)]
  }

  // ---------------------------------------------------------------- mode events

  function TransitionEnd(event: Event, result: StateResult): Pc {
    if event.UsbAttached? then Leaving(TransitionDone(result)) else TransitionDone(result)
  }

  // The loop head of `transition`, on the word just loaded.
  function TransitionSeen(f: Fields, event: Event): Pc {
    if !f.initialized then TransitionEnd(event, NotInitialized)
    else match NextFields(f, event)
      case None => TransitionEnd(event, InvalidTransition)
      case Some(next) => TransitionCas(event, f, next)
  }

  function TransitionCommit(s: Sys, t: nat, event: Event, next: Fields): Sys {
    Commit(s, t, next, ByEvent(event),
           if event.UsbAttached? && next.route != NetworkRoute then TransitionRevokeCall
           else TransitionEnd(event, TransitionOk))
  }

  // ---------------------------------------------------------------- the acquire transaction

  function Finish(owner: O.Owner, pc: Pc): Pc {
    if owner == O.Usb then Leaving(pc) else pc
  }

  // `dap_acquire` after its first (or repeated) load of the mode word.
  function AcquireSeen(s: Sys, owner: O.Owner, authenticated: bool, retried: bool): Pc {
    var result := PolicyResult(s.mode, owner, authenticated, false);
    if result == Allowed then AcquireAdmit(owner, authenticated, retried, Load(s))
    else AcquireRefused(s.mode, owner, authenticated, retried, result)
  }

  // A BUSY answer to USB looks once whether the network holds the bus.
  function AcquireRefused(f: Fields, owner: O.Owner, authenticated: bool, retried: bool, result: DapResult): Pc {
    if result == Busy && owner == O.Usb && !retried && f.route != NetworkRoute then AcquirePreempt(authenticated)
    else Finish(owner, Denied(result))
  }

  function AcquireAnswered(owner: O.Owner, authenticated: bool, before: Sample, r: O.Result, got: O.Yielded): Pc {
    var result := if owner == O.Diagnostic && r == O.AlreadyOwner then Busy else FromOwnership(r);
    if result == Allowed && got.YieldClaim? then AcquireSample(owner, authenticated, before, got.claim)
    else Finish(owner, Denied(result))
  }

  predicate StampsAgree(kind: Kind, f: Fields, g: Fields) {
    && SamePolicyFields(f, g, KindOwner(kind) == O.Network)
    && (kind.Board? ==> f.shell == g.shell && f.shellEpoch == g.shellEpoch)
  }

  // The answer after the transaction was undone: what the later word says, but never ALLOWED.
  function Undone(result: DapResult): DapResult {
    if result == Allowed then Busy else result
  }

  // ---------------------------------------------------------------- one step

  function StartCall(s: Sys, t: nat, call: Call): Sys {
    match call
    case Transition(event) =>
      if event.UsbAttached? then s.(inflight := s.inflight + {t}, pcs := s.pcs[t := TransitionLoad(event)])
      else Goto(s, t, TransitionSeen(s.mode, event))
    case SetRoute(request) =>
      if request.Select? && request.route.RouteUnused? then Goto(s, t, RouteDone(InvalidArgument))
      else CallOwn(s, t, O.ControlBegin(O.Diagnostic, false), RouteReserving(request))
    case DapAcquire(owner, authenticated) =>
      if owner == O.Usb
      then s.(inflight := s.inflight + {t}, pcs := s.pcs[t := AcquireLoad(owner, authenticated, false)])
      else Goto(s, t, AcquireSeen(s, owner, authenticated, false))
    case BeginOperation(kind, authenticated) =>
      var result := PolicyResult(s.mode, KindOwner(kind), authenticated, kind.Board?);
      Goto(s, t, if result == Allowed then BeginAdmit(kind, authenticated, Load(s)) else Denied(result))
  }

  // Where a waiting thread continues once its ownership call has returned.
  function AfterOwn(pc: Pc, r: O.Result, got: O.Yielded): Pc {
    match pc
    case TransitionRevoking => Leaving(TransitionDone(TransitionOk))
    case RouteReserving(request) =>
      if FromOwnership(r) != Allowed || !got.YieldOperation? then RouteDone(FromOwnership(r))
      else if got.operation.state != O.NoOwner then RouteEnd(got.operation, Busy)
      else RouteLoad(request, got.operation)
    case AcquireRevoking(authenticated) =>
      if r == O.Ok || r == O.NotOwner then AcquireLoad(O.Usb, authenticated, true)
      else Finish(O.Usb, Denied(FromOwnership(r)))
    case Acquiring(owner, authenticated, before) => AcquireAnswered(owner, authenticated, before, r, got)
    case AcquireReleasing(owner, authenticated, after) =>
      if r != O.Ok && r != O.NotOwner then Finish(owner, Denied(FromOwnership(r)))
      else AcquireRecheck(owner, authenticated, after)
    case Beginning(kind, authenticated, before) =>
      if FromOwnership(r) != Allowed || !got.YieldOperation? then Denied(FromOwnership(r))
      else BeginSample(kind, authenticated, before, got.operation)
    case _ => pc
  }

  function GoRoute(s: Sys, t: nat, ok: bool): Sys {
    match PcOf(s, t)
    case RouteLoad(request, op) =>
      if !s.mode.initialized then Goto(s, t, RouteEnd(op, InvalidState))
      else if s.mode.ota != Idle then Goto(s, t, RouteEnd(op, Busy))
      else Goto(s, t, RouteCheck(request, op, s.mode))
    case RouteCheck(request, op, current) =>
      var selected := SelectedRoute(current, request);
      if s.inflight != {} then Goto(s, t, RouteEnd(op, Busy))
      else if selected == current.route then Goto(s, t, RouteEnd(op, Allowed))
      else Goto(s, t, RouteSave(op, current, selected))
    case RouteSave(op, current, selected) =>
      if !ok then Goto(s, t, RouteEnd(op, StorageError))
      else s.(stored := selected, pcs := s.pcs[t := RoutePublish(op, current, selected)])
    case RoutePublish(op, current, selected) =>
      if s.mode != current || !ok then Goto(s, t, RoutePublish(op, s.mode, selected))
      else Commit(s, t, RouteFields(current, selected), ByRoute(selected), RouteEnd(op, Allowed))
    case _ => s
  }

  // The steps of an acquire that only look and decide.
  function AcquireNext(s: Sys, pc: Pc): Pc {
    match pc
    case AcquireLoad(owner, authenticated, retried) => AcquireSeen(s, owner, authenticated, retried)
    case AcquireAdmit(owner, authenticated, retried, before) =>
      if OwnerConflicts(s.own.word, owner) then AcquireRefused(before.mode, owner, authenticated, retried, Busy)
      else AcquireCall(owner, authenticated, before)
    case AcquirePreempt(authenticated) =>
      if CurrentOwner(s.own.word) == Some(O.Network) then AcquireRevokeCall(authenticated)
      else Finish(O.Usb, Denied(Busy))
    case AcquireSample(owner, authenticated, before, claim) =>
      var kind := OnClaim(owner, claim);
      if StampsAgree(kind, before.mode, s.mode) then Finish(owner, Admitted(kind, before, Load(s)))
      else AcquireReleaseCall(owner, authenticated, Load(s), claim)
    case AcquireRecheck(owner, authenticated, after) =>
      Finish(owner, Denied(Undone(Admission(after.mode, owner, authenticated, false, s.own.word))))
    case _ => pc
  }

  // The steps of an operation transaction that only look and decide.
  function BeginNext(s: Sys, pc: Pc): Pc {
    match pc
    case BeginAdmit(kind, authenticated, before) =>
      if OwnerConflicts(s.own.word, KindOwner(kind)) then Denied(Busy) else BeginCall(kind, authenticated, before)
    case BeginSample(kind, authenticated, before, op) =>
      if StampsAgree(kind, before.mode, s.mode) then Admitted(kind, before, Load(s))
      else BeginUndo(kind, authenticated, Load(s), op)
    case BeginRecheck(kind, authenticated, after) =>
      Denied(Undone(Admission(after.mode, KindOwner(kind), authenticated, kind.Board?, s.own.word)))
    case _ => pc
  }

  /** An ownership call the thread is about to make, and where it waits or continues. */
  datatype Pending = Pending(call: O.Call, target: Pc)

  function PendingCall(pc: Pc): Option<Pending> {
    match pc
    case TransitionRevokeCall => Some(Pending(O.RevokeOwner(O.Network), TransitionRevoking))
    case RouteEnd(op, answer) => Some(Pending(O.OperationEnd(op), RouteDone(answer)))
    case AcquireRevokeCall(authenticated) => Some(Pending(O.RevokeOwner(O.Network), AcquireRevoking(authenticated)))
    case AcquireCall(owner, authenticated, before) =>
      Some(Pending(O.Acquire(owner), Acquiring(owner, authenticated, before)))
    case AcquireReleaseCall(owner, authenticated, after, claim) =>
      Some(Pending(O.Release(claim), AcquireReleasing(owner, authenticated, after)))
    case BeginCall(kind, authenticated, before) =>
      Some(Pending(if kind.Board? then O.ControlBegin(O.Network, false) else O.OperationBegin(kind.claim, false),
                   Beginning(kind, authenticated, before)))
    case BeginUndo(kind, authenticated, after, op) =>
      Some(Pending(O.OperationEnd(op), BeginRecheck(kind, authenticated, after)))
    case _ => None
  }

  function GoTransition(s: Sys, t: nat, ok: bool): Sys {
    match PcOf(s, t)
    case Leaving(target) => s.(inflight := s.inflight - {t}, pcs := s.pcs[t := target])
    case TransitionLoad(event) => Goto(s, t, TransitionSeen(s.mode, event))
    case TransitionCas(event, current, next) =>
      if s.mode != current || !ok then Goto(s, t, TransitionSeen(s.mode, event))
      else TransitionCommit(s, t, event, next)
    case _ => s
  }

  predicate Waiting(pc: Pc) {
    pc.TransitionRevoking? || pc.RouteReserving? || pc.AcquireRevoking? || pc.Acquiring? || pc.AcquireReleasing? ||
    pc.Beginning?
  }

  predicate InTransition(pc: Pc) {
    pc.Leaving? || pc.TransitionLoad? || pc.TransitionCas?
  }

  predicate InRoute(pc: Pc) {
    pc.RouteLoad? || pc.RouteCheck? || pc.RouteSave? || pc.RoutePublish?
  }

  predicate InBegin(pc: Pc) {
    pc.BeginAdmit? || pc.BeginSample? || pc.BeginRecheck?
  }

  function GoOn(s: Sys, t: nat, ok: bool): Sys {
    var pc, own := PcOf(s, t), O.PcOf(s.own, t);
    if Waiting(pc) then (if own.Returned? then Goto(s, t, AfterOwn(pc, own.result, own.got)) else s)
    else if PendingCall(pc).Some? then CallOwn(s, t, PendingCall(pc).value.call, PendingCall(pc).value.target)
    else if InTransition(pc) then GoTransition(s, t, ok)
    else if InRoute(pc) then GoRoute(s, t, ok)
    else if InBegin(pc) then Goto(s, t, BeginNext(s, pc))
    else Goto(s, t, AcquireNext(s, pc))
  }

  function Step(s: Sys, a: Action): Sys {
    var t := a.thread;
    match a.choice
    case Start(call) => if Resting(PcOf(s, t)) && O.Resting(O.PcOf(s.own, t)) then StartCall(s, t, call) else s
    case Go(ok) => GoOn(s, t, ok)
    case OwnStart(request) =>
      if Resting(PcOf(s, t)) then s.(own := O.Step(s.own, O.Action(t, O.Start(request)))) else s
    case OwnAdvance(ok) => s.(own := O.Step(s.own, O.Action(t, O.Advance(ok))))
  }

  function Exec(s: Sys, run: seq<Action>): Sys
    decreases run
  {
    if run == [] then s else Exec(Step(s, run[0]), run[1..])
  }

  // ---------------------------------------------------------------- invariants

  predicate Applied(f: Fields, e: Entry) {
    match e.cause
    case Boot => false
    case ByEvent(event) => NextFields(f, event) == Some(e.mode)
    case ByRoute(route) => e.mode == RouteFields(f, route)
  }

  // The history of the word is the fold of its commits: nothing else changed it and none was lost.
  predicate LogInv(s: Sys) {
    && s.log != [] && s.log[0].cause == Boot
    && s.log[|s.log| - 1].mode == s.mode
    && forall i :: 0 < i < |s.log| ==> Applied(s.log[i - 1].mode, s.log[i])
  }

  predicate SampleOk(s: Sys, x: Sample) {
    x.at < |s.log| && s.log[x.at].mode == x.mode
  }

  predicate AdmittedOk(s: Sys, kind: Kind, before: Sample, after: Sample) {
    && SampleOk(s, before) && SampleOk(s, after) && before.at <= after.at
    && PolicyResult(before.mode, KindOwner(kind), true, kind.Board?) == Allowed
    && StampsAgree(kind, before.mode, after.mode)
  }

  predicate BeforeOk(s: Sys, owner: O.Owner, board: bool, before: Sample) {
    SampleOk(s, before) && PolicyResult(before.mode, owner, true, board) == Allowed
  }

  // What a thread knows about the history from where it stands.
  predicate PcInv(s: Sys, pc: Pc) {
    match pc
    case TransitionCas(event, current, next) => NextFields(current, event) == Some(next)
    case AcquireAdmit(owner, _, _, before) => BeforeOk(s, owner, false, before)
    case AcquireCall(owner, _, before) => BeforeOk(s, owner, false, before)
    case Acquiring(owner, _, before) => BeforeOk(s, owner, false, before)
    case AcquireSample(owner, _, before, _) => BeforeOk(s, owner, false, before)
    case BeginAdmit(kind, _, before) => BeforeOk(s, KindOwner(kind), kind.Board?, before)
    case BeginCall(kind, _, before) => BeforeOk(s, KindOwner(kind), kind.Board?, before)
    case Beginning(kind, _, before) => BeforeOk(s, KindOwner(kind), kind.Board?, before)
    case BeginSample(kind, _, before, _) => BeforeOk(s, KindOwner(kind), kind.Board?, before)
    case Admitted(kind, before, after) => AdmittedOk(s, kind, before, after)
    case Leaving(target) =>
      match target {
        case Admitted(kind, before, after) => AdmittedOk(s, kind, before, after)
        case _ => target.TransitionDone? || target.Denied?
      }
    case _ => true
  }

  ghost predicate HistoryInv(s: Sys) {
    LogInv(s) && forall t: nat :: PcInv(s, PcOf(s, t))
  }

  // An authenticated answer differs from an unauthenticated one only in being refused.
  lemma PolicyAuthenticated(f: Fields, owner: O.Owner, authenticated: bool, board: bool)
    requires PolicyResult(f, owner, authenticated, board) == Allowed
    ensures PolicyResult(f, owner, true, board) == Allowed
  {
  }

  // A step leaves the mode word alone or commits one cause on the word as it is now.
  predicate Extends(s: Sys, s': Sys) {
    || (s'.log == s.log && s'.mode == s.mode)
    || (|s'.log| == |s.log| + 1 && s'.log[..|s.log|] == s.log &&
        s'.log[|s.log|].mode == s'.mode && Applied(s.mode, s'.log[|s.log|]))
  }

  predicate Moved(s: Sys, s': Sys, t: nat) {
    Extends(s, s') && PcInv(s', PcOf(s', t))
  }

  lemma StartMoves(s: Sys, t: nat, call: Call)
    requires LogInv(s)
    ensures Moved(s, StartCall(s, t, call), t)
  {
    hide O.Step;
    hide PolicyResult;
    forall owner, authenticated, board | PolicyResult(s.mode, owner, authenticated, board) == Allowed
      ensures PolicyResult(s.mode, owner, true, board) == Allowed
    {
      PolicyAuthenticated(s.mode, owner, authenticated, board);
    }
  }

  lemma AfterOwnKnows(s: Sys, pc: Pc, r: O.Result, got: O.Yielded)
    requires PcInv(s, pc)
    ensures PcInv(s, AfterOwn(pc, r, got))
  {
    hide PolicyResult;
  }

  lemma GoRouteMoves(s: Sys, t: nat, ok: bool)
    requires LogInv(s) && PcInv(s, PcOf(s, t))
    ensures Moved(s, GoRoute(s, t, ok), t)
  {
    hide O.Step;
    hide PolicyResult;
  }

  lemma GoTransitionMoves(s: Sys, t: nat, ok: bool)
    requires LogInv(s) && PcInv(s, PcOf(s, t))
    ensures Moved(s, GoTransition(s, t, ok), t)
  {
    hide O.Step;
    hide PolicyResult;
    hide NextFields;
  }

  lemma AcquireNextKnows(s: Sys, pc: Pc)
    requires LogInv(s) && PcInv(s, pc)
    ensures PcInv(s, AcquireNext(s, pc))
  {
    hide SamePolicyFields;
    hide PolicyResult;
    match pc {
      case AcquireLoad(owner, authenticated, _) =>
        if PolicyResult(s.mode, owner, authenticated, false) == Allowed {
          PolicyAuthenticated(s.mode, owner, authenticated, false);
        }
      case _ =>
    }
  }

  lemma BeginNextKnows(s: Sys, pc: Pc)
    requires LogInv(s) && PcInv(s, pc)
    ensures PcInv(s, BeginNext(s, pc))
  {
    hide SamePolicyFields;
    hide PolicyResult;
  }

  lemma PendingKnows(s: Sys, pc: Pc)
    requires PcInv(s, pc) && PendingCall(pc).Some?
    ensures PcInv(s, PendingCall(pc).value.target)
  {
    hide PolicyResult;
  }

  lemma GoMoves(s: Sys, t: nat, ok: bool)
    requires LogInv(s) && PcInv(s, PcOf(s, t))
    ensures Moved(s, GoOn(s, t, ok), t)
  {
    hide AfterOwn;
    hide GoRoute;
    hide GoTransition;
    hide AcquireNext;
    hide BeginNext;
    hide PendingCall;
    hide O.Step;
    hide PolicyResult;
    hide SamePolicyFields;
    hide PcInv;
    var pc, own := PcOf(s, t), O.PcOf(s.own, t);
    if Waiting(pc) {
      if own.Returned? {
        AfterOwnKnows(s, pc, own.result, own.got);
      }
    } else if PendingCall(pc).Some? {
      PendingKnows(s, pc);
    } else if InTransition(pc) {
      GoTransitionMoves(s, t, ok);
    } else if InRoute(pc) {
      GoRouteMoves(s, t, ok);
    } else if InBegin(pc) {
      BeginNextKnows(s, pc);
    } else {
      AcquireNextKnows(s, pc);
    }
    if GoOn(s, t, ok).log == s.log {
      SameHistory(s, GoOn(s, t, ok), PcOf(GoOn(s, t, ok), t));
    }
  }

  // Knowledge about the history depends on nothing but the history.
  lemma SameHistory(s: Sys, s': Sys, pc: Pc)
    requires s'.log == s.log
    ensures PcInv(s', pc) == PcInv(s, pc)
  {
    hide PolicyResult;
    hide SamePolicyFields;
  }

  lemma StepMoves(s: Sys, a: Action)
    requires LogInv(s) && PcInv(s, PcOf(s, a.thread))
    ensures Moved(s, Step(s, a), a.thread)
  {
    hide StartCall;
    hide GoOn;
    hide O.Step;
    hide PcInv;
    match a.choice {
      case Start(call) => StartMoves(s, a.thread, call);
      case Go(ok) => GoMoves(s, a.thread, ok);
      case OwnStart(_) => SameHistory(s, Step(s, a), PcOf(s, a.thread));
      case OwnAdvance(_) => SameHistory(s, Step(s, a), PcOf(s, a.thread));
    }
  }

  lemma HistoryGrows(s: Sys, s': Sys, pc: Pc)
    requires |s.log| <= |s'.log| && s'.log[..|s.log|] == s.log
    requires PcInv(s, pc)
    ensures PcInv(s', pc)
  {
    hide PolicyResult;
    hide SamePolicyFields;
    assert forall x: Sample :: SampleOk(s, x) ==> SampleOk(s', x);
  }

  lemma StartMovesOneThread(s: Sys, t: nat, call: Call, u: nat)
    requires u != t
    ensures PcOf(StartCall(s, t, call), u) == PcOf(s, u)
  {
    hide O.Step;
  }

  lemma GoRouteMovesOneThread(s: Sys, t: nat, ok: bool, u: nat)
    requires u != t
    ensures PcOf(GoRoute(s, t, ok), u) == PcOf(s, u)
  {
  }

  lemma GoTransitionMovesOneThread(s: Sys, t: nat, ok: bool, u: nat)
    requires u != t
    ensures PcOf(GoTransition(s, t, ok), u) == PcOf(s, u)
  {
  }

  lemma StepMovesOneThread(s: Sys, a: Action, u: nat)
    requires u != a.thread
    ensures PcOf(Step(s, a), u) == PcOf(s, u)
  {
    hide O.Step;
    hide AfterOwn;
    hide AcquireNext;
    hide BeginNext;
    hide PendingCall;
    hide StartCall;
    hide GoRoute;
    hide GoTransition;
    match a.choice {
      case Start(call) => StartMovesOneThread(s, a.thread, call, u);
      case Go(ok) =>
        GoRouteMovesOneThread(s, a.thread, ok, u);
        GoTransitionMovesOneThread(s, a.thread, ok, u);
      case OwnStart(_) =>
      case OwnAdvance(_) =>
    }
  }

  lemma StepKeepsHistory(s: Sys, a: Action)
    requires HistoryInv(s)
    ensures HistoryInv(Step(s, a))
  {
    var s' := Step(s, a);
    assert PcInv(s, PcOf(s, a.thread));
    StepMoves(s, a);
    forall u: nat
      ensures PcInv(s', PcOf(s', u))
    {
      if u != a.thread {
        StepMovesOneThread(s, a, u);
        assert PcInv(s, PcOf(s, u));
        HistoryGrows(s, s', PcOf(s, u));
      }
    }
    ExtendsKeepsLog(s, s');
  }

  lemma ExtendsKeepsLog(s: Sys, s': Sys)
    requires LogInv(s) && Extends(s, s')
    ensures LogInv(s')
  {
    forall i | 0 < i < |s'.log|
      ensures Applied(s'.log[i - 1].mode, s'.log[i])
    {
      if i < |s.log| {
        assert s'.log[..|s.log|][i] == s.log[i] && s'.log[..|s.log|][i - 1] == s.log[i - 1];
      } else {
        assert s'.log[..|s.log|][i - 1] == s.log[i - 1];
      }
    }
    assert s'.log[0] == s'.log[..|s.log|][0];
  }

  // A transition that will return, or has returned, OK.
  predicate Succeeded(pc: Pc) {
    || pc.TransitionRevokeCall? || pc.TransitionRevoking?
    || pc == TransitionDone(TransitionOk) || pc == Leaving(TransitionDone(TransitionOk))
  }

  lemma SeenIsOpen(s: Sys, pc: Pc, call: Call)
    ensures call.Transition? ==> !Succeeded(TransitionSeen(s.mode, call.event))
    ensures call.DapAcquire? ==> !Succeeded(AcquireSeen(s, call.owner, call.authenticated, false))
    ensures !Succeeded(pc) ==> !Succeeded(AcquireNext(s, pc)) && !Succeeded(BeginNext(s, pc))
    ensures PendingCall(pc).Some? && !Succeeded(pc) ==> !Succeeded(PendingCall(pc).value.target)
  {
    hide PolicyResult;
    hide SamePolicyFields;
    hide NextFields;
  }

  lemma AnsweredIsOpen(pc: Pc, r: O.Result, got: O.Yielded)
    requires Waiting(pc) && !Succeeded(pc)
    ensures !Succeeded(AfterOwn(pc, r, got))
  {
  }

  /**
   No committed event is lost and none is invented: a transition turns successful in exactly the
   step that appends its event to the history of the word.
   */
  lemma OkMeansCommitted(s: Sys, a: Action)
    requires PcInv(s, PcOf(s, a.thread))
    ensures var s', pc, pc' := Step(s, a), PcOf(s, a.thread), PcOf(Step(s, a), a.thread);
            && (!Succeeded(pc) && Succeeded(pc') ==>
                  pc.TransitionCas? && s'.log == s.log + [Entry(pc.next, ByEvent(pc.event))])
            && (s'.log != s.log && s'.log[|s'.log| - 1].cause.ByEvent? ==>
                  pc.TransitionCas? && s'.log == s.log + [Entry(pc.next, ByEvent(pc.event))] && Succeeded(pc'))
  {
    hide O.Step;
    hide AfterOwn;
    hide AcquireNext;
    hide BeginNext;
    hide PendingCall;
    hide TransitionSeen;
    hide AcquireSeen;
    hide PolicyResult;
    var pc, own := PcOf(s, a.thread), O.PcOf(s.own, a.thread);
    match a.choice {
      case Start(call) => SeenIsOpen(s, pc, call);
      case Go(ok) =>
        if Waiting(pc) && own.Returned? && !Succeeded(pc) {
          AnsweredIsOpen(pc, own.result, own.got);
        }
        SeenIsOpen(s, pc, if pc.TransitionLoad? || pc.TransitionCas? then Transition(pc.event) else SetRoute(Toggle));
      case OwnStart(_) =>
      case OwnAdvance(_) =>
    }
  }

  // ---------------------------------------------------------------- the arbiter inside

  // Seen from the arbiter, a step is one ownership step of the same thread or nothing. Suspending and
  // resuming the bus is nobody's business here.
  lemma StepOnOwnership(s: Sys, a: Action)
    ensures var own' := Step(s, a).own;
            || own' == s.own
            || exists c: O.Choice ::
                 && own' == O.Step(s.own, O.Action(a.thread, c))
                 && (c.Start? && (c.call.Suspend? || c.call.Resume?) ==> a.choice == OwnStart(c.call))
  {
    hide O.Step;
    hide AfterOwn;
    hide AcquireNext;
    hide BeginNext;
    var s', t := Step(s, a), a.thread;
    match a.choice {
      case Start(call) =>
        assert s'.own == s.own || s'.own == O.Step(s.own, O.Action(t, O.Start(O.ControlBegin(O.Diagnostic, false))));
      case Go(ok) =>
        if PendingCall(PcOf(s, t)).Some? && !Waiting(PcOf(s, t)) {
          assert s'.own == O.Step(s.own, O.Action(t, O.Start(PendingCall(PcOf(s, t)).value.call)));
        }
      case OwnStart(request) =>
        assert s'.own == s.own || s'.own == O.Step(s.own, O.Action(t, O.Start(request)));
      case OwnAdvance(ok) =>
        assert s'.own == O.Step(s.own, O.Action(t, O.Advance(ok)));
    }
  }

  lemma StepKeepsOwnership(s: Sys, a: Action)
    requires O.Inv(s.own)
    ensures O.Inv(Step(s, a).own)
  {
    hide O.Step;
    hide Step;
    StepOnOwnership(s, a);
    if Step(s, a).own != s.own {
      var c :| Step(s, a).own == O.Step(s.own, O.Action(a.thread, c));
      O.StepKeepsWordInv(s.own, O.Action(a.thread, c));
      O.StepKeepsGrantInv(s.own, O.Action(a.thread, c));
      O.StepKeepsThreadInv(s.own, O.Action(a.thread, c));
    }
  }

  // ---------------------------------------------------------------- the stored route

  predicate Reserved(pc: Pc) {
    pc.RouteLoad? || pc.RouteCheck? || pc.RouteSave? || pc.RoutePublish?
  }

  predicate Holds(s: Sys, t: nat, op: O.Operation) {
    op in s.own.live && op.holder == t
  }

  // A route command past its reservation holds the one live operation, taken while nobody owned the bus.
  predicate ReserveInv(s: Sys, t: nat) {
    var pc, own := PcOf(s, t), O.PcOf(s.own, t);
    && (Reserved(pc) ==> Holds(s, t, pc.operation) && pc.operation.state == O.NoOwner)
    && (pc.RouteReserving? && own.Returned? && own.got.YieldOperation? ==> Holds(s, t, own.got.operation))
  }

  ghost predicate StoreInv(s: Sys) {
    && (forall t: nat :: PcOf(s, t).RoutePublish? ==> s.stored == PcOf(s, t).selected)
    && ((forall t: nat :: !PcOf(s, t).RoutePublish?) ==> s.stored == s.mode.route)
  }

  ghost predicate RouteInv(s: Sys) {
    (forall t: nat :: ReserveInv(s, t)) && StoreInv(s)
  }

  // Ending an operation is the only way out of `live`, and only its holder can.
  lemma OperationStays(own: O.Sys, t: nat, c: O.Choice, op: O.Operation)
    requires op in own.live
    requires op.holder != t || c.Advance? || !c.call.OperationEnd?
    ensures op in O.Step(own, O.Action(t, c)).live
  {
  }

  lemma AdvanceYields(own: O.Sys, t: nat, ok: bool)
    ensures var own' := O.Step(own, O.Action(t, O.Advance(ok)));
            var pc' := O.PcOf(own', t);
            pc'.Returned? && pc'.got.YieldOperation? && pc' != O.PcOf(own, t) ==>
              pc'.got.operation in own'.live && pc'.got.operation.holder == t
  {
  }

  lemma ControlBeginYields(own: O.Sys, t: nat, owner: O.Owner)
    requires O.Resting(O.PcOf(own, t))
    ensures var pc' := O.PcOf(O.Step(own, O.Action(t, O.Start(O.ControlBegin(owner, false)))), t);
            pc'.Returned? ==> pc'.got == O.Nothing
  {
  }

  lemma OwnMovesOneThread(own: O.Sys, a: O.Action, u: nat)
    requires u != a.thread
    ensures O.PcOf(O.Step(own, a), u) == O.PcOf(own, u)
  {
    O.StepMovesOneThread(own, a, u);
  }

  // Another thread's step cannot take a reservation away.
  lemma OthersKeepReservation(s: Sys, a: Action, u: nat)
    requires u != a.thread && ReserveInv(s, u)
    ensures ReserveInv(Step(s, a), u)
  {
    hide O.Step;
    hide Step;
    StepMovesOneThread(s, a, u);
    StepOnOwnership(s, a);
    if Step(s, a).own != s.own {
      var c :| Step(s, a).own == O.Step(s.own, O.Action(a.thread, c));
      OwnMovesOneThread(s.own, O.Action(a.thread, c), u);
      forall op | Holds(s, u, op)
        ensures Holds(Step(s, a), u, op)
      {
        OperationStays(s.own, a.thread, c, op);
      }
    }
  }

  lemma GoRouteKeepsReservation(s: Sys, t: nat, ok: bool)
    requires ReserveInv(s, t) && InRoute(PcOf(s, t))
    ensures ReserveInv(GoRoute(s, t, ok), t)
  {
  }

  lemma OwnStepKeepsReservation(s: Sys, t: nat, ok: bool)
    requires ReserveInv(s, t)
    ensures ReserveInv(Step(s, Action(t, OwnAdvance(ok))), t)
  {
    hide O.Step;
    AdvanceYields(s.own, t, ok);
    forall op | Holds(s, t, op)
      ensures op in O.Step(s.own, O.Action(t, O.Advance(ok))).live
    {
      OperationStays(s.own, t, O.Advance(ok), op);
    }
  }

  // Only the route command itself gets into the reserved positions.
  lemma OutsideRoute(s: Sys, pc: Pc)
    ensures !Reserved(AcquireNext(s, pc)) || Reserved(pc)
    ensures !Reserved(BeginNext(s, pc)) || Reserved(pc)
    ensures AcquireNext(s, pc).RouteReserving? ==> pc.RouteReserving?
    ensures BeginNext(s, pc).RouteReserving? ==> pc.RouteReserving?
    ensures PendingCall(pc).Some? ==>
              && !Reserved(PendingCall(pc).value.target) && !PendingCall(pc).value.target.RouteReserving?
              && !InRoute(pc) && !InTransition(pc)
  {
    hide PolicyResult;
    hide SamePolicyFields;
  }

  lemma AfterOwnReserves(pc: Pc, r: O.Result, got: O.Yielded)
    requires Waiting(pc)
    ensures var pc' := AfterOwn(pc, r, got);
            && !pc'.RouteReserving?
            && (Reserved(pc') ==> pc.RouteReserving? && got.YieldOperation? &&
                                  pc'.operation == got.operation && got.operation.state == O.NoOwner)
  {
  }

  lemma TransitionOutsideRoute(s: Sys, t: nat, ok: bool)
    requires PcInv(s, PcOf(s, t)) && InTransition(PcOf(s, t))
    ensures var s' := GoTransition(s, t, ok);
            s'.own == s.own && !Reserved(PcOf(s', t)) && !PcOf(s', t).RouteReserving?
  {
    hide PolicyResult;
    hide SamePolicyFields;
  }

  lemma GoKeepsReservation(s: Sys, t: nat, ok: bool)
    requires ReserveInv(s, t) && PcInv(s, PcOf(s, t))
    ensures ReserveInv(GoOn(s, t, ok), t)
  {
    hide O.Step;
    hide AcquireNext;
    hide BeginNext;
    hide PendingCall;
    hide GoRoute;
    hide GoTransition;
    hide AfterOwn;
    hide PcInv;
    var pc, own := PcOf(s, t), O.PcOf(s.own, t);
    OutsideRoute(s, pc);
    if Waiting(pc) && own.Returned? {
      AfterOwnReserves(pc, own.result, own.got);
    } else if InTransition(pc) {
      TransitionOutsideRoute(s, t, ok);
    } else if InRoute(pc) {
      GoRouteKeepsReservation(s, t, ok);
    }
  }

  lemma StepKeepsReservation(s: Sys, a: Action)
    requires ReserveInv(s, a.thread) && PcInv(s, PcOf(s, a.thread))
    ensures ReserveInv(Step(s, a), a.thread)
  {
    hide O.Step;
    hide GoOn;
    hide PcInv;
    hide TransitionSeen;
    hide AcquireSeen;
    var t := a.thread;
    match a.choice {
      case Start(call) =>
        if O.Resting(O.PcOf(s.own, t)) {
          ControlBeginYields(s.own, t, O.Diagnostic);
        }
        SeenOutsideRoute(s, call);
      case Go(ok) => GoKeepsReservation(s, t, ok);
      case OwnStart(_) =>
      case OwnAdvance(ok) => OwnStepKeepsReservation(s, t, ok);
    }
  }

  lemma SeenOutsideRoute(s: Sys, call: Call)
    ensures call.Transition? ==>
              var pc := TransitionSeen(s.mode, call.event); !Reserved(pc) && !pc.RouteReserving?
    ensures call.DapAcquire? ==>
              var pc := AcquireSeen(s, call.owner, call.authenticated, false); !Reserved(pc) && !pc.RouteReserving?
  {
    hide PolicyResult;
  }

  // What one step does to the stored route, the route of the word and the publishing thread.
  predicate StoreEffect(s: Sys, s': Sys, t: nat) {
    var pc, pc' := PcOf(s, t), PcOf(s', t);
    || (s'.stored == s.stored && s'.mode.route == s.mode.route && pc'.RoutePublish? == pc.RoutePublish? &&
        (pc.RoutePublish? ==> pc'.selected == pc.selected))
    || (pc.RouteSave? && pc'.RoutePublish? && s'.stored == pc'.selected && s'.mode == s.mode)
    || (pc.RoutePublish? && !pc'.RoutePublish? && s'.stored == s.stored && s'.mode.route == pc.selected)
  }

  lemma TransitionStores(s: Sys, t: nat, ok: bool)
    requires PcInv(s, PcOf(s, t)) && InTransition(PcOf(s, t))
    ensures StoreEffect(s, GoTransition(s, t, ok), t)
  {
    hide NextFields;
    hide PolicyResult;
    hide SamePolicyFields;
    var pc := PcOf(s, t);
    if pc.TransitionCas? {
      EventTouches(pc.current, pc.event);
    }
  }

  lemma RouteStores(s: Sys, t: nat, ok: bool)
    requires InRoute(PcOf(s, t))
    ensures StoreEffect(s, GoRoute(s, t, ok), t)
  {
  }

  lemma StepStores(s: Sys, a: Action)
    requires PcInv(s, PcOf(s, a.thread))
    ensures StoreEffect(s, Step(s, a), a.thread)
  {
    hide O.Step;
    hide PcInv;
    hide AcquireNext;
    hide BeginNext;
    hide PendingCall;
    hide GoRoute;
    hide GoTransition;
    hide AfterOwn;
    hide TransitionSeen;
    hide AcquireSeen;
    var t, pc, own := a.thread, PcOf(s, a.thread), O.PcOf(s.own, a.thread);
    match a.choice {
      case Start(call) => SeenOutsideRoute(s, call);
      case Go(ok) =>
        OutsideRoute(s, pc);
        if Waiting(pc) && own.Returned? {
          AfterOwnReserves(pc, own.result, own.got);
          AfterOwnDoesNotPublish(pc, own.result, own.got);
        } else if InTransition(pc) {
          TransitionStores(s, t, ok);
        } else if InRoute(pc) {
          RouteStores(s, t, ok);
        }
      case OwnStart(_) =>
      case OwnAdvance(_) =>
    }
  }

  lemma AfterOwnDoesNotPublish(pc: Pc, r: O.Result, got: O.Yielded)
    requires Waiting(pc)
    ensures !AfterOwn(pc, r, got).RoutePublish?
  {
  }

  // At most one route command is past its reservation.
  lemma OneReservation(s: Sys, t: nat, u: nat)
    requires O.WordInv(s.own) && ReserveInv(s, t) && ReserveInv(s, u)
    requires Reserved(PcOf(s, t)) && Reserved(PcOf(s, u))
    ensures t == u
  {
    assert PcOf(s, t).operation in s.own.live && PcOf(s, u).operation in s.own.live;
    var h: nat :| s.own.live == {O.Operation(s.own.word.state, s.own.word.generation, h)};
  }

  lemma StepKeepsRoute(s: Sys, a: Action)
    requires HistoryInv(s) && O.Inv(s.own) && RouteInv(s)
    ensures RouteInv(Step(s, a))
  {
    hide Step;
    hide PcInv;
    var s', t := Step(s, a), a.thread;
    assert PcInv(s, PcOf(s, t)) && ReserveInv(s, t);
    StepKeepsReservation(s, a);
    StepStores(s, a);
    forall u: nat | u != t
      ensures ReserveInv(s', u) && PcOf(s', u) == PcOf(s, u)
    {
      assert ReserveInv(s, u);
      OthersKeepReservation(s, a, u);
      StepMovesOneThread(s, a, u);
    }
    if Reserved(PcOf(s, t)) {
      forall u: nat | u != t
        ensures !PcOf(s, u).RoutePublish?
      {
        assert ReserveInv(s, u);
        if PcOf(s, u).RoutePublish? {
          OneReservation(s, t, u);
        }
      }
    }
    StoresKeepInv(s, s', t);
  }

  lemma StoresKeepInv(s: Sys, s': Sys, t: nat)
    requires StoreInv(s) && StoreEffect(s, s', t)
    requires forall u: nat :: u != t ==> PcOf(s', u) == PcOf(s, u)
    requires Reserved(PcOf(s, t)) ==> forall u: nat :: u != t ==> !PcOf(s, u).RoutePublish?
    ensures StoreInv(s')
  {
    if PcOf(s, t).RoutePublish? && !PcOf(s', t).RoutePublish? {
      assert s.stored == PcOf(s, t).selected;
    }
  }

  // ---------------------------------------------------------------- whole runs

  ghost predicate Inv(s: Sys) {
    HistoryInv(s) && O.Inv(s.own) && RouteInv(s)
  }

  lemma BootedInv(s: Sys)
    requires Booted(s)
    ensures Inv(s)
  {
  }

  lemma {:induction false} ExecKeepsInv(s: Sys, run: seq<Action>)
    requires Inv(s)
    ensures Inv(Exec(s, run))
    decreases run
  {
    if run != [] {
      hide Step;
      StepKeepsHistory(s, run[0]);
      StepKeepsOwnership(s, run[0]);
      StepKeepsRoute(s, run[0]);
      ExecKeepsInv(Step(s, run[0]), run[1..]);
    }
  }

  lemma {:induction false} ExecKeepsFirst(s: Sys, run: seq<Action>)
    requires Inv(s)
    ensures Exec(s, run).log != [] && Exec(s, run).log[0] == s.log[0]
    decreases run
  {
    if run != [] {
      hide Step;
      hide PcInv;
      var s' := Step(s, run[0]);
      assert PcInv(s, PcOf(s, run[0].thread));
      StepMoves(s, run[0]);
      StepKeepsHistory(s, run[0]);
      StepKeepsOwnership(s, run[0]);
      StepKeepsRoute(s, run[0]);
      assert s'.log[0] == s.log[0] by {
        if s'.log != s.log {
          assert s'.log[..|s.log|][0] == s.log[0];
        }
      }
      ExecKeepsFirst(s', run[1..]);
    }
  }

  /**
   However events, route commands and admissions interleave, with any storage failures: the
   stored route is the word's route whenever no route command is between its save and its
   publication, and every such command holds the arbiter's only live operation.
   */
  lemma StoredRouteAgrees(s: Sys, run: seq<Action>)
    requires Booted(s)
    ensures var s' := Exec(s, run);
            && ((forall t: nat :: !PcOf(s', t).RoutePublish?) ==> s'.stored == s'.mode.route)
            && (s'.own.live == {} ==> s'.stored == s'.mode.route)
            && (forall t: nat :: PcOf(s', t).RoutePublish? ==>
                  s'.own.live == {PcOf(s', t).operation} && PcOf(s', t).selected == s'.stored)
  {
    BootedInv(s);
    ExecKeepsInv(s, run);
    var s' := Exec(s, run);
    forall t: nat | PcOf(s', t).RoutePublish?
      ensures s'.own.live == {PcOf(s', t).operation}
    {
      assert ReserveInv(s', t);
      assert PcOf(s', t).operation in s'.own.live;
      var h: nat :| s'.own.live == {O.Operation(s'.own.word.state, s'.own.word.generation, h)};
    }
  }
}
