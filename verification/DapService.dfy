/**
 `firmware/components/dap_service/dap_service.c`: any number of clients opening, closing,
 resetting and submitting on two transports, and the one worker that drains disconnects, takes
 requests off the queue, executes them and answers. One step per shared access; what happens under
 a transport's mutex before the first access others can see belongs to the step that takes it.
 */
module DapService {
  import opened Options
  import opened SessionIds

  datatype Transport = Usb | Network

  const QUEUE_DEPTH := 4

  datatype Holder = ByClient(thread: nat) | ByWorker

  /** A transport: its live session id (0 for none), its mutex and, as history, the last session opened. */
  datatype Slot = Slot(id: nat, holder: Option<Holder>, serial: nat)

  /** `serial` (whose session) and `ticket` (which accepted request) are history. */
  datatype Item = Item(transport: Transport, id: nat, serial: nat, ticket: nat)

  datatype Result = Ok | InvalidArgument | Unauthenticated | Busy | StaleSession | QueueFull

  datatype Call =
    | Open(transport: Transport, authenticated: bool)
    | Close(transport: Transport, id: nat)
    | Reset(transport: Transport, id: nat)
    | Submit(transport: Transport, id: nat, acceptable: bool)

  datatype Pc =
    | Idle
    | Done(result: Result, session: nat)
    | Lock(call: Call)
    | OpenFetch(transport: Transport)
    | OpenStore(transport: Transport, session: nat, serial: nat)
    | FlagDisconnect(transport: Transport)
    | Send(transport: Transport, session: nat)
    | Unlock(transport: Transport, result: Result, session: nat)

  datatype Stage =
    | Poll
    | Closing(todo: set<Transport>, held: Option<Item>)
    | Receive
    | Drain(item: Item)
    | Check(item: Item)
    | Execute(item: Item)
    | Executed(item: Item)
    | Deliver(item: Item)
    | Callback(item: Item)
    | Release(item: Item)

  datatype Event =
    | SessionClosed(transport: Transport)
    | Ran(item: Item)
    | Responded(item: Item)

  datatype Sys = Sys(
    usb: Slot, network: Slot, pending: set<Transport>, next: nat, issued: nat, accepted: nat,
    queue: seq<Item>, clients: map<nat, Pc>, worker: Stage, log: seq<Event>)

  const Init := Sys(Slot(0, None, 0), Slot(0, None, 0), {}, 1, 0, 0, [], map[], Poll, [])

  /** `ok`: a request is in time, a response has a deliverable size. */
  datatype Action = Start(thread: nat, call: Call) | Go(thread: nat) | Work(ok: bool)

  function SlotOf(s: Sys, tr: Transport): Slot {
    if tr.Usb? then s.usb else s.network
  }

  function WithSlot(s: Sys, tr: Transport, slot: Slot): Sys {
    if tr.Usb? then s.(usb := slot) else s.(network := slot)
  }

  function PcOf(s: Sys, t: nat): Pc {
    if t in s.clients then s.clients[t] else Idle
  }

  function Goto(s: Sys, t: nat, pc: Pc): Sys {
    s.(clients := s.clients[t := pc])
  }

  // ---------------------------------------------------------------- clients

  function StartCall(s: Sys, t: nat, call: Call): Sys {
    match call
    case Open(tr, authenticated) =>
      if tr.Network? && !authenticated then Goto(s, t, Done(Unauthenticated, 0)) else Goto(s, t, Lock(call))
    case Submit(_, id, acceptable) =>
      if id == 0 || !acceptable then Goto(s, t, Done(InvalidArgument, 0)) else Goto(s, t, Lock(call))
    case _ => if call.id == 0 then Goto(s, t, Done(InvalidArgument, 0)) else Goto(s, t, Lock(call))
  }

  // With the mutex just taken: look at the live session, and for a close end it.
  function Enter(s: Sys, t: nat, call: Call): Sys {
    var tr := call.transport;
    var slot := SlotOf(s, tr).(holder := Some(ByClient(t)));
    match call
    case Open(_, _) =>
      Goto(WithSlot(s, tr, slot), t, if slot.id != 0 then Unlock(tr, Busy, 0) else OpenFetch(tr))
    case Close(_, id) =>
      if slot.id != id then Goto(WithSlot(s, tr, slot), t, Unlock(tr, StaleSession, 0))
      else Goto(WithSlot(s, tr, slot.(id := 0)), t, FlagDisconnect(tr))
    case Reset(_, id) =>
      Goto(WithSlot(s, tr, slot), t, if slot.id != id then Unlock(tr, StaleSession, 0) else FlagDisconnect(tr))
    case Submit(_, id, _) =>
      Goto(WithSlot(s, tr, slot), t, if slot.id != id then Unlock(tr, StaleSession, 0) else Send(tr, id))
  }

  function GoClient(s: Sys, t: nat): Sys {
    match PcOf(s, t)
    case Lock(call) => if SlotOf(s, call.transport).holder.None? then Enter(s, t, call) else s
    case OpenFetch(tr) =>
      var s1 := s.(next := (s.next + 1) % WORD);
      if s.next == 0 then s1 else Goto(s1.(issued := s.issued + 1), t, OpenStore(tr, s.next, s.issued + 1))
    case OpenStore(tr, id, serial) =>
      Goto(WithSlot(s, tr, SlotOf(s, tr).(id := id, serial := serial)), t, Unlock(tr, Ok, id))
    case FlagDisconnect(tr) => Goto(s.(pending := s.pending + {tr}), t, Unlock(tr, Ok, 0))
    case Send(tr, id) =>
      if |s.queue| >= QUEUE_DEPTH then Goto(s, t, Unlock(tr, QueueFull, 0))
      else
        Goto(s.(queue := s.queue + [Item(tr, id, SlotOf(s, tr).serial, s.accepted)], accepted := s.accepted + 1),
             t, Unlock(tr, Ok, 0))
    case Unlock(tr, result, id) => Goto(WithSlot(s, tr, SlotOf(s, tr).(holder := None)), t, Done(result, id))
    case _ => s
  }

  // ---------------------------------------------------------------- the worker

  function Live(s: Sys, item: Item): bool {
    item.id != 0 && SlotOf(s, item.transport).id == item.id
  }

  function WorkerTo(s: Sys, stage: Stage): Sys {
    s.(worker := stage)
  }

  function Log(s: Sys, e: Event): Sys {
    s.(log := s.log + [e])
  }

  function GoWorker(s: Sys, ok: bool): Sys {
    match s.worker
    case Poll => s.(pending := {}, worker := Closing(s.pending, None))
    case Closing(todo, held) =>
      if todo == {} then WorkerTo(s, if held.None? then Receive else Check(held.value))
      else
        var tr := if Usb in todo then Usb else Network;
        Log(WorkerTo(s, Closing(todo - {tr}, held)), SessionClosed(tr))
    case Receive =>
      if s.queue == [] then WorkerTo(s, Poll)
      else s.(queue := s.queue[1..], worker := Drain(s.queue[0]))
    case Drain(item) => s.(pending := {}, worker := Closing(s.pending, Some(item)))
    case Check(item) => WorkerTo(s, if Live(s, item) then Execute(item) else Poll)
    case Execute(item) => if ok then Log(WorkerTo(s, Executed(item)), Ran(item)) else WorkerTo(s, Poll)
    case Executed(item) => WorkerTo(s, if ok then Deliver(item) else Poll)
    case Deliver(item) =>
      var slot := SlotOf(s, item.transport);
      if slot.holder.Some? then s
      else
        WorkerTo(WithSlot(s, item.transport, slot.(holder := Some(ByWorker))),
                 if Live(s, item) then Callback(item) else Release(item))
    case Callback(item) => Log(WorkerTo(s, Release(item)), Responded(item))
    case Release(item) =>
      WorkerTo(WithSlot(s, item.transport, SlotOf(s, item.transport).(holder := None)), Poll)
  }

  function Step(s: Sys, a: Action): Sys {
    match a
    case Start(t, call) => if PcOf(s, t).Idle? || PcOf(s, t).Done? then StartCall(s, t, call) else s
    case Go(t) => GoClient(s, t)
    case Work(ok) => GoWorker(s, ok)
  }

  function Exec(s: Sys, run: seq<Action>): Sys
    decreases run
  {
    if run == [] then s else Exec(Step(s, run[0]), run[1..])
  }

  // ---------------------------------------------------------------- ids

  // The counter names the next session, or is about to skip 0.
  predicate IdsInv(next: nat, issued: nat) {
    if next == 0 then issued > 0 && issued % IDS == 0 else next == Id(issued + 1)
  }

  lemma FetchKeepsIds(next: nat, issued: nat)
    requires IdsInv(next, issued)
    ensures IdsInv((next + 1) % WORD, if next == 0 then issued else issued + 1)
    ensures next != 0 ==> next == Id(issued + 1)
  {
    NextId(issued + 1);
    if issued > 0 {
      NextId(issued);
    }
    if next == 0 {
      assert Id(issued + 1) == 1;
    }
  }

  // ---------------------------------------------------------------- mutexes and sessions

  // The transport whose mutex the position holds.
  function Holds(pc: Pc): Option<Transport> {
    if pc.OpenFetch? || pc.OpenStore? || pc.FlagDisconnect? || pc.Send? || pc.Unlock? then Some(pc.transport) else None
  }

  predicate SlotInv(s: Sys, tr: Transport) {
    var slot := SlotOf(s, tr);
    && slot.serial <= s.issued
    && (slot.id != 0 ==> slot.serial > 0 && slot.id == Id(slot.serial))
  }

  predicate ClientInv(s: Sys, t: nat) {
    var pc := PcOf(s, t);
    && (Holds(pc).Some? ==> SlotOf(s, pc.transport).holder == Some(ByClient(t)))
    && (pc.OpenFetch? ==> SlotOf(s, pc.transport).id == 0)
    && (pc.OpenStore? ==>
          && SlotOf(s, pc.transport).id == 0
          && SlotOf(s, pc.transport).serial < pc.serial <= s.issued && pc.session == Id(pc.serial))
    && (pc.Send? ==> pc.session != 0 && SlotOf(s, pc.transport).id == pc.session)
    && (pc.Lock? && !pc.call.Open? ==> pc.call.id != 0)
  }

  predicate ItemInv(s: Sys, item: Item) {
    0 < item.serial <= SlotOf(s, item.transport).serial && item.id == Id(item.serial)
  }

  function HeldItem(stage: Stage): Option<Item> {
    match stage
    case Poll => None
    case Receive => None
    case Closing(_, held) => held
    case _ => Some(stage.item)
  }

  predicate WorkerInv(s: Sys) {
    && (HeldItem(s.worker).Some? ==> ItemInv(s, HeldItem(s.worker).value))
    && (s.worker.Callback? || s.worker.Release? ==>
          SlotOf(s, s.worker.item.transport).holder == Some(ByWorker))
    && (s.worker.Callback? ==> Live(s, s.worker.item))
  }

  ghost predicate LockInv(s: Sys) {
    && IdsInv(s.next, s.issued) && SlotInv(s, Usb) && SlotInv(s, Network)
    && (forall t: nat :: ClientInv(s, t))
    && (forall i :: 0 <= i < |s.queue| ==> ItemInv(s, s.queue[i]))
    && WorkerInv(s)
  }

  lemma EnterKeeps(s: Sys, t: nat, call: Call)
    requires SlotInv(s, Usb) && SlotInv(s, Network) && SlotOf(s, call.transport).holder.None?
    requires !call.Open? ==> call.id != 0
    ensures var s' := Enter(s, t, call);
            SlotInv(s', Usb) && SlotInv(s', Network) && ClientInv(s', t)
  {
    hide Id;
  }

  lemma GoKeepsOwn(s: Sys, t: nat)
    requires IdsInv(s.next, s.issued) && SlotInv(s, Usb) && SlotInv(s, Network) && ClientInv(s, t)
    ensures var s' := GoClient(s, t);
            IdsInv(s'.next, s'.issued) && SlotInv(s', Usb) && SlotInv(s', Network) && ClientInv(s', t)
  {
    hide Id;
    hide Enter;
    var pc := PcOf(s, t);
    FetchKeepsIds(s.next, s.issued);
    match pc {
      case Lock(call) =>
        if SlotOf(s, call.transport).holder.None? {
          EnterKeeps(s, t, call);
          EnterFrame(s, t, call);
        }
      case OpenStore(_, _, serial) => NextId(serial);
      case _ =>
    }
  }

  // What a client step may change besides its own position.
  lemma EnterFrame(s: Sys, t: nat, call: Call)
    ensures var s' := Enter(s, t, call);
            && s'.next == s.next && s'.issued == s.issued && s'.queue == s.queue && s'.worker == s.worker
            && s'.pending == s.pending && s'.accepted == s.accepted && s'.log == s.log
            && (forall u: nat :: u != t ==> PcOf(s', u) == PcOf(s, u))
            && forall tr :: SlotOf(s', tr).serial == SlotOf(s, tr).serial &&
                 (SlotOf(s', tr) == SlotOf(s, tr) ||
                  (tr == call.transport && SlotOf(s', tr).holder == Some(ByClient(t))))
  {
  }

  // A slot changes only under its mutex, and sessions on a transport are numbered upwards.
  lemma ClientFrame(s: Sys, t: nat)
    requires ClientInv(s, t)
    ensures var s' := GoClient(s, t);
            && s'.worker == s.worker && s'.log == s.log && s.issued <= s'.issued
            && (forall u: nat :: u != t ==> PcOf(s', u) == PcOf(s, u))
            && forall tr ::
                 && SlotOf(s, tr).serial <= SlotOf(s', tr).serial
                 && (SlotOf(s', tr) == SlotOf(s, tr) ||
                     SlotOf(s, tr).holder == Some(ByClient(t)) || SlotOf(s, tr).holder.None?)
  {
    hide Enter;
    hide Id;
    if PcOf(s, t).Lock? {
      EnterFrame(s, t, PcOf(s, t).call);
    }
  }

  // Another client's position survives.
  lemma OtherClientKeeps(s: Sys, s': Sys, t: nat, u: nat)
    requires ClientInv(s, u) && u != t && PcOf(s', u) == PcOf(s, u) && s.issued <= s'.issued
    requires forall tr :: SlotOf(s', tr) == SlotOf(s, tr) ||
               SlotOf(s, tr).holder == Some(ByClient(t)) || SlotOf(s, tr).holder.None?
    ensures ClientInv(s', u)
  {
    hide Id;
  }

  lemma WorkerUndisturbed(s: Sys, s': Sys, t: nat)
    requires WorkerInv(s) && s'.worker == s.worker
    requires forall tr ::
               && SlotOf(s, tr).serial <= SlotOf(s', tr).serial
               && (SlotOf(s', tr) == SlotOf(s, tr) ||
                   SlotOf(s, tr).holder == Some(ByClient(t)) || SlotOf(s, tr).holder.None?)
    ensures WorkerInv(s')
  {
    hide Id;
  }

  lemma QueueGrows(s: Sys, t: nat, i: int)
    requires SlotInv(s, Usb) && SlotInv(s, Network) && ClientInv(s, t)
    requires forall k :: 0 <= k < |s.queue| ==> ItemInv(s, s.queue[k])
    requires 0 <= i < |GoClient(s, t).queue|
    ensures ItemInv(GoClient(s, t), GoClient(s, t).queue[i])
  {
    hide Id;
    hide Enter;
    ClientFrame(s, t);
    if PcOf(s, t).Lock? {
      EnterFrame(s, t, PcOf(s, t).call);
    }
  }

  lemma ClientKeepsLocks(s: Sys, t: nat)
    requires LockInv(s)
    ensures LockInv(GoClient(s, t))
  {
    var s' := GoClient(s, t);
    assert ClientInv(s, t);
    GoKeepsOwn(s, t);
    ClientFrame(s, t);
    forall i | 0 <= i < |s'.queue|
      ensures ItemInv(s', s'.queue[i])
    {
      QueueGrows(s, t, i);
    }
    hide GoClient;
    hide ClientInv;
    hide ItemInv;
    hide IdsInv;
    forall u: nat
      ensures ClientInv(s', u)
    {
      assert ClientInv(s, u);
      if u != t {
        OtherClientKeeps(s, s', t, u);
      }
    }
    WorkerUndisturbed(s, s', t);
  }

  // The worker never changes a session, and a mutex only when it is free or its own.
  predicate OnlyWorkerMutex(slot: Slot, slot': Slot) {
    && slot'.id == slot.id && slot'.serial == slot.serial
    && (slot' == slot || slot.holder == Some(ByWorker) || slot.holder.None?)
  }

  lemma WorkerFrame(s: Sys, ok: bool)
    requires WorkerInv(s)
    ensures var s' := GoWorker(s, ok);
            && s'.next == s.next && s'.issued == s.issued && s'.accepted == s.accepted && s'.clients == s.clients
            && OnlyWorkerMutex(s.usb, s'.usb) && OnlyWorkerMutex(s.network, s'.network)
  {
    hide ItemInv;
  }

  lemma WorkerKeepsOwn(s: Sys, ok: bool)
    requires WorkerInv(s) && (s.queue != [] ==> ItemInv(s, s.queue[0]))
    ensures WorkerInv(GoWorker(s, ok))
  {
    hide Id;
  }

  lemma WorkerKeepsLocks(s: Sys, ok: bool)
    requires LockInv(s)
    ensures LockInv(GoWorker(s, ok))
  {
    hide Id;
    hide IdsInv;
    var s' := GoWorker(s, ok);
    WorkerFrame(s, ok);
    WorkerKeepsOwn(s, ok);
    assert s'.queue == s.queue || (s.queue != [] && s'.queue == s.queue[1..]);
    hide GoWorker;
    hide WorkerInv;
    forall u: nat
      ensures ClientInv(s', u)
    {
      assert ClientInv(s, u);
      WorkerLeavesClient(s, s', u);
    }
    forall i | 0 <= i < |s'.queue|
      ensures ItemInv(s', s'.queue[i])
    {
      assert s'.queue[i] == s.queue[i] || (i + 1 < |s.queue| && s'.queue[i] == s.queue[i + 1]);
    }
  }

  lemma WorkerLeavesClient(s: Sys, s': Sys, u: nat)
    requires ClientInv(s, u) && PcOf(s', u) == PcOf(s, u) && s'.issued == s.issued
    requires OnlyWorkerMutex(s.usb, s'.usb) && OnlyWorkerMutex(s.network, s'.network)
    ensures ClientInv(s', u)
  {
    hide Id;
  }

  lemma StartKeepsLocks(s: Sys, t: nat, call: Call)
    requires LockInv(s)
    ensures LockInv(Step(s, Start(t, call)))
  {
    hide Id;
    hide IdsInv;
    var s' := Step(s, Start(t, call));
    assert s' == s.(clients := s'.clients);
    forall u: nat
      ensures ClientInv(s', u)
    {
      assert ClientInv(s, u);
    }
    forall i | 0 <= i < |s'.queue|
      ensures ItemInv(s', s'.queue[i])
    {
      assert ItemInv(s, s.queue[i]);
    }
  }

  // ---------------------------------------------------------------- disconnects

  // The session whose requests the DAP processor has run since it was last told of a disconnect.
  function Dirty(log: seq<Event>, tr: Transport): Option<nat> {
    if log == [] then None
    else
      var last := log[|log| - 1];
      if last == SessionClosed(tr) then None
      else if last.Ran? && last.item.transport == tr then Some(last.item.serial)
      else Dirty(log[..|log| - 1], tr)
  }

  lemma DirtyAppends(log: seq<Event>, e: Event, tr: Transport)
    ensures Dirty(log + [e], tr) ==
            if e == SessionClosed(tr) then None
            else if e.Ran? && e.item.transport == tr then Some(e.item.serial)
            else Dirty(log, tr)
  {
    assert (log + [e])[..|log + [e]| - 1] == log;
  }

  // Session `c` of `tr` has left, or is about to leave, its traces in the processor.
  predicate Carrier(s: Sys, tr: Transport, c: nat) {
    || Dirty(s.log, tr) == Some(c)
    || (s.worker.Execute? && s.worker.item.transport == tr && s.worker.item.serial == c)
  }

  // The disconnect of `tr` is on its way to the processor.
  predicate Flagged(s: Sys, tr: Transport) {
    tr in s.pending || (s.worker.Closing? && tr in s.worker.todo)
  }

  ghost predicate Flagging(s: Sys, tr: Transport) {
    exists t: nat :: PcOf(s, t) == FlagDisconnect(tr)
  }

  // A carrier is live, or its disconnect is on its way.
  ghost predicate CarrierOk(s: Sys, tr: Transport, c: nat) {
    var slot := SlotOf(s, tr);
    c <= slot.serial && ((slot.id != 0 && slot.serial == c) || Flagging(s, tr) || Flagged(s, tr))
  }

  // Requests of later sessions wait behind that disconnect.
  predicate QueueBehind(s: Sys, tr: Transport, c: nat) {
    forall i :: 0 <= i < |s.queue| && s.queue[i].transport == tr && s.queue[i].serial > c ==> Flagged(s, tr)
  }

  predicate WorkerBehind(s: Sys, tr: Transport, c: nat) {
    match s.worker
    case Drain(item) => item.transport == tr && item.serial > c ==> tr in s.pending
    case Closing(todo, Some(item)) => item.transport == tr && item.serial > c ==> tr in todo
    case Check(item) => item.transport == tr ==> item.serial <= c
    case Execute(item) => item.transport == tr ==> item.serial == c
    case _ => true
  }

  predicate Behind(s: Sys, tr: Transport, c: nat) {
    QueueBehind(s, tr, c) && WorkerBehind(s, tr, c)
  }

  ghost predicate CarriersInv(s: Sys) {
    forall tr: Transport, c: nat :: Carrier(s, tr, c) ==> CarrierOk(s, tr, c) && Behind(s, tr, c)
  }

  // The ids have not gone round while a request that still looks live was waiting.
  predicate Timely(s: Sys) {
    s.worker.Check? && Live(s, s.worker.item) ==>
      SlotOf(s, s.worker.item.transport).serial - s.worker.item.serial < IDS
  }

  // ------------------------------------------------ client steps

  // A client step keeps a disconnect on its way, and ends a session only by flagging one.
  lemma ClientKeepsFlags(s: Sys, t: nat, tr: Transport)
    requires ClientInv(s, t)
    ensures var s' := GoClient(s, t);
            && (Flagged(s, tr) ==> Flagged(s', tr))
            && (PcOf(s, t) == FlagDisconnect(tr) ==> Flagged(s', tr))
  {
    hide Id;
    hide Enter;
    if PcOf(s, t).Lock? {
      EnterFrame(s, t, PcOf(s, t).call);
    }
  }

  lemma ClientKeepsFlagging(s: Sys, t: nat, tr: Transport)
    requires LockInv(s) && Flagging(s, tr)
    ensures Flagging(GoClient(s, t), tr) || Flagged(GoClient(s, t), tr)
  {
    var u: nat :| PcOf(s, u) == FlagDisconnect(tr);
    assert ClientInv(s, t);
    ClientFrame(s, t);
    ClientKeepsFlags(s, t, tr);
    hide GoClient;
    if u != t {
      assert PcOf(GoClient(s, t), u) == FlagDisconnect(tr);
    }
  }

  // How a client changes the live session of a transport.
  lemma ClientSession(s: Sys, t: nat, tr: Transport)
    requires ClientInv(s, t)
    ensures var s', pc := GoClient(s, t), PcOf(s, t);
            var slot, slot' := SlotOf(s, tr), SlotOf(s', tr);
            || (slot'.id == slot.id && slot'.serial == slot.serial)
            || (slot'.id == 0 && slot'.serial == slot.serial && PcOf(s', t) == FlagDisconnect(tr))
            || (pc.OpenStore? && pc.transport == tr && slot.id == 0 && slot'.serial == pc.serial > slot.serial)
  {
    hide Id;
  }

  lemma ClientKeepsCarrier(s: Sys, t: nat, tr: Transport, c: nat)
    requires LockInv(s) && CarrierOk(s, tr, c)
    ensures CarrierOk(GoClient(s, t), tr, c)
  {
    var s', pc := GoClient(s, t), PcOf(s, t);
    assert ClientInv(s, t);
    ClientSession(s, t, tr);
    ClientKeepsFlags(s, t, tr);
    if Flagging(s, tr) {
      ClientKeepsFlagging(s, t, tr);
    }
    hide GoClient;
    if PcOf(s', t) == FlagDisconnect(tr) {
      assert Flagging(s', tr);
    }
  }

  // Whoever holds the mutex for something else keeps disconnects from being flagged.
  lemma NobodyFlags(s: Sys, t: nat, tr: Transport)
    requires LockInv(s) && Holds(PcOf(s, t)) == Some(tr) && !PcOf(s, t).FlagDisconnect?
    ensures !Flagging(s, tr)
  {
    assert ClientInv(s, t);
    forall u: nat
      ensures PcOf(s, u) != FlagDisconnect(tr)
    {
      assert ClientInv(s, u);
    }
  }

  // A request is queued for the live session, so behind every earlier session's disconnect.
  lemma SendIsBehind(s: Sys, t: nat, tr: Transport, c: nat)
    requires LockInv(s) && CarrierOk(s, tr, c)
    requires PcOf(s, t).Send? && PcOf(s, t).transport == tr && SlotOf(s, tr).serial > c
    ensures Flagged(s, tr)
  {
    NobodyFlags(s, t, tr);
  }

  lemma ClientQueue(s: Sys, t: nat)
    ensures var s', pc := GoClient(s, t), PcOf(s, t);
            || s'.queue == s.queue
            || (pc.Send? && |s.queue| < QUEUE_DEPTH && s'.accepted == s.accepted + 1 &&
                s'.queue == s.queue + [Item(pc.transport, pc.session, SlotOf(s, pc.transport).serial, s.accepted)])
  {
    hide Enter;
    if PcOf(s, t).Lock? {
      EnterFrame(s, t, PcOf(s, t).call);
    }
  }

  lemma ClientKeepsBehind(s: Sys, t: nat, tr: Transport, c: nat)
    requires LockInv(s) && CarrierOk(s, tr, c) && Behind(s, tr, c)
    ensures Behind(GoClient(s, t), tr, c)
  {
    var s', pc := GoClient(s, t), PcOf(s, t);
    assert ClientInv(s, t);
    ClientFrame(s, t);
    ClientKeepsFlags(s, t, tr);
    ClientQueue(s, t);
    if pc.Send? && pc.transport == tr && SlotOf(s, tr).serial > c {
      SendIsBehind(s, t, tr, c);
    }
    ClientPending(s, t);
    hide GoClient;
    hide LockInv;
    hide CarrierOk;
    forall i | 0 <= i < |s'.queue| && s'.queue[i].transport == tr && s'.queue[i].serial > c
      ensures Flagged(s', tr)
    {
      if i < |s.queue| {
        assert s'.queue[i] == s.queue[i];
      }
    }
  }

  lemma ClientPending(s: Sys, t: nat)
    ensures s.pending <= GoClient(s, t).pending
  {
    hide Enter;
    if PcOf(s, t).Lock? {
      EnterFrame(s, t, PcOf(s, t).call);
    }
  }

  lemma ClientKeepsCarriers(s: Sys, t: nat)
    requires LockInv(s) && CarriersInv(s)
    ensures CarriersInv(GoClient(s, t))
  {
    var s' := GoClient(s, t);
    assert ClientInv(s, t);
    ClientFrame(s, t);
    hide GoClient;
    hide LockInv;
    hide CarrierOk;
    hide Behind;
    forall tr: Transport, c: nat | Carrier(s', tr, c)
      ensures CarrierOk(s', tr, c) && Behind(s', tr, c)
    {
      assert Carrier(s, tr, c);
      ClientKeepsCarrier(s, t, tr, c);
      ClientKeepsBehind(s, t, tr, c);
    }
  }

  // ------------------------------------------------ worker steps

  lemma WorkerFlags(s: Sys, ok: bool, tr: Transport)
    requires Flagged(s, tr)
    ensures var s' := GoWorker(s, ok);
            Flagged(s', tr) || s'.log == s.log + [SessionClosed(tr)]
  {
  }

  lemma WorkerLog(s: Sys, ok: bool)
    ensures var s' := GoWorker(s, ok);
            || s'.log == s.log
            || (s.worker.Closing? && s.worker.todo != {} && s'.worker.Closing? &&
                exists tr :: tr in s.worker.todo && s'.log == s.log + [SessionClosed(tr)])
            || (s.worker.Execute? && s'.worker.Executed? && s'.log == s.log + [Ran(s.worker.item)])
            || (s.worker.Callback? && s'.worker.Release? && s'.log == s.log + [Responded(s.worker.item)])
  {
    if s.worker.Closing? && s.worker.todo != {} {
      var some :| some in s.worker.todo;
      if some.Network? {
        assert Network in s.worker.todo;
      } else {
        assert Usb in s.worker.todo;
      }
    }
  }

  // A checked request belongs to the live session, provided the ids have not gone round.
  lemma CheckedIsCurrent(s: Sys)
    requires LockInv(s) && s.worker.Check? && Timely(s) && Live(s, s.worker.item)
    ensures SlotOf(s, s.worker.item.transport).serial == s.worker.item.serial
  {
    var item := s.worker.item;
    var slot := SlotOf(s, item.transport);
    assert SlotInv(s, item.transport);
    IdsDiffer(item.serial, slot.serial);
  }

  // Who is a carrier after a worker step.
  lemma WorkerCarrier(s: Sys, ok: bool, tr: Transport, c: nat)
    requires Carrier(GoWorker(s, ok), tr, c)
    ensures Carrier(s, tr, c) || (s.worker.Check? && Live(s, s.worker.item) &&
                                  s.worker.item.transport == tr && s.worker.item.serial == c)
    ensures GoWorker(s, ok).log != s.log + [SessionClosed(tr)]
  {
    var s' := GoWorker(s, ok);
    WorkerLog(s, ok);
    forall e
      ensures Dirty(s.log + [e], tr) ==
              if e == SessionClosed(tr) then None
              else if e.Ran? && e.item.transport == tr then Some(e.item.serial)
              else Dirty(s.log, tr)
    {
      DirtyAppends(s.log, e, tr);
    }
    hide Dirty;
  }

  lemma WorkerKeepsCarrier(s: Sys, ok: bool, tr: Transport, c: nat)
    requires LockInv(s) && CarriersInv(s) && Timely(s) && Carrier(GoWorker(s, ok), tr, c)
    ensures CarrierOk(GoWorker(s, ok), tr, c)
  {
    var s' := GoWorker(s, ok);
    WorkerCarrier(s, ok, tr, c);
    WorkerFrame(s, ok);
    assert PcOf(s', 0) == PcOf(s, 0);
    if Carrier(s, tr, c) {
      assert CarrierOk(s, tr, c);
      if Flagged(s, tr) {
        WorkerFlags(s, ok, tr);
      }
      if Flagging(s, tr) {
        var u: nat :| PcOf(s, u) == FlagDisconnect(tr);
        assert PcOf(s', u) == FlagDisconnect(tr);
      }
    } else {
      CheckedIsCurrent(s);
    }
  }

  lemma ExecuteFollowsCheck(s: Sys, tr: Transport, c: nat)
    requires LockInv(s) && CarriersInv(s) && Timely(s)
    requires s.worker.Check? && Live(s, s.worker.item) && s.worker.item.transport == tr && Carrier(s, tr, c)
    ensures s.worker.item.serial == c
  {
    CheckedIsCurrent(s);
    assert CarrierOk(s, tr, c) && Behind(s, tr, c);
  }

  lemma WorkerQueue(s: Sys, ok: bool, i: int)
    requires 0 <= i < |GoWorker(s, ok).queue|
    ensures GoWorker(s, ok).queue[i] in s.queue
  {
  }

  lemma WorkerKeepsQueueBehind(s: Sys, ok: bool, tr: Transport, c: nat)
    requires LockInv(s) && CarriersInv(s) && Timely(s) && Carrier(GoWorker(s, ok), tr, c)
    ensures QueueBehind(GoWorker(s, ok), tr, c)
  {
    var s' := GoWorker(s, ok);
    WorkerCarrier(s, ok, tr, c);
    forall i | 0 <= i < |s'.queue| && s'.queue[i].transport == tr && s'.queue[i].serial > c
      ensures Flagged(s', tr)
    {
      WorkerQueue(s, ok, i);
      var j :| 0 <= j < |s.queue| && s.queue[j] == s'.queue[i];
      assert ItemInv(s, s.queue[j]);
      if Carrier(s, tr, c) {
        assert Behind(s, tr, c);
        WorkerFlags(s, ok, tr);
      } else {
        CheckedIsCurrent(s);
      }
    }
  }

  lemma WorkerKeepsWorkerBehind(s: Sys, ok: bool, tr: Transport, c: nat)
    requires LockInv(s) && CarriersInv(s) && Timely(s) && Carrier(GoWorker(s, ok), tr, c)
    ensures WorkerBehind(GoWorker(s, ok), tr, c)
  {
    WorkerCarrier(s, ok, tr, c);
    if Carrier(s, tr, c) {
      assert Behind(s, tr, c);
      if s.worker.Check? && Live(s, s.worker.item) && s.worker.item.transport == tr {
        ExecuteFollowsCheck(s, tr, c);
      }
      hide Carrier;
      hide CarriersInv;
      hide LockInv;
      if s.worker.Receive? && s.queue != [] {
        assert s.queue[0] == s.queue[0];
      }
    }
  }

  lemma WorkerKeepsBehind(s: Sys, ok: bool, tr: Transport, c: nat)
    requires LockInv(s) && CarriersInv(s) && Timely(s) && Carrier(GoWorker(s, ok), tr, c)
    ensures Behind(GoWorker(s, ok), tr, c)
  {
    WorkerKeepsQueueBehind(s, ok, tr, c);
    WorkerKeepsWorkerBehind(s, ok, tr, c);
  }

  lemma WorkerKeepsCarriers(s: Sys, ok: bool)
    requires LockInv(s) && CarriersInv(s) && Timely(s)
    ensures CarriersInv(GoWorker(s, ok))
  {
    var s' := GoWorker(s, ok);
    hide GoWorker;
    hide LockInv;
    forall tr: Transport, c: nat | Carrier(s', tr, c)
      ensures CarrierOk(s', tr, c) && Behind(s', tr, c)
    {
      WorkerKeepsCarrier(s, ok, tr, c);
      WorkerKeepsBehind(s, ok, tr, c);
    }
  }

  lemma StartKeepsCarriers(s: Sys, t: nat, call: Call)
    requires LockInv(s) && CarriersInv(s)
    ensures CarriersInv(Step(s, Start(t, call)))
  {
    var s' := Step(s, Start(t, call));
    assert s' == s.(clients := s'.clients);
    forall tr: Transport, c: nat | Carrier(s', tr, c)
      ensures CarrierOk(s', tr, c) && Behind(s', tr, c)
    {
      assert Carrier(s, tr, c);
      assert CarrierOk(s, tr, c) && Behind(s, tr, c);
      if Flagging(s, tr) {
        var u: nat :| PcOf(s, u) == FlagDisconnect(tr);
        assert PcOf(s', u) == FlagDisconnect(tr);
      }
    }
  }

  // ---------------------------------------------------------------- the order of runs

  // A request runs on a processor that is clean or carries only its own session.
  predicate RanOk(log: seq<Event>) {
    forall j :: 0 <= j < |log| && log[j].Ran? ==>
      var d := Dirty(log[..j], log[j].item.transport); d.None? || d.value == log[j].item.serial
  }

  lemma RanOkGrows(log: seq<Event>, e: Event)
    requires RanOk(log)
    requires e.Ran? ==> var d := Dirty(log, e.item.transport); d.None? || d.value == e.item.serial
    ensures RanOk(log + [e])
  {
    hide Dirty;
    var longer := log + [e];
    forall j | 0 <= j < |longer| && longer[j].Ran?
      ensures var d := Dirty(longer[..j], longer[j].item.transport); d.None? || d.value == longer[j].item.serial
    {
      if j < |log| {
        assert longer[..j] == log[..j];
      } else {
        assert longer[..j] == log;
      }
    }
  }

  lemma WorkerKeepsRanOk(s: Sys, ok: bool)
    requires CarriersInv(s) && RanOk(s.log)
    ensures RanOk(GoWorker(s, ok).log)
  {
    var s' := GoWorker(s, ok);
    WorkerLog(s, ok);
    hide RanOk;
    if s'.log != s.log {
      var e := s'.log[|s.log|];
      assert s'.log == s.log + [e];
      if e.Ran? {
        var tr := e.item.transport;
        if Dirty(s.log, tr).Some? {
          assert Carrier(s, tr, Dirty(s.log, tr).value);
          assert Behind(s, tr, Dirty(s.log, tr).value);
        }
      }
      RanOkGrows(s.log, e);
    }
  }

  lemma {:induction false} DirtySince(log: seq<Event>, i: nat, j: nat, tr: Transport)
    requires RanOk(log) && i < j <= |log| && log[i].Ran? && log[i].item.transport == tr
    requires forall k :: i < k < j ==> log[k] != SessionClosed(tr)
    ensures Dirty(log[..j], tr) == Some(log[i].item.serial)
    decreases j
  {
    assert log[..j] == log[..j - 1] + [log[j - 1]];
    DirtyAppends(log[..j - 1], log[j - 1], tr);
    if i < j - 1 {
      DirtySince(log, i, j - 1, tr);
    }
  }

  // ---------------------------------------------------------------- every request at most once

  // The ticket of the next request the worker can take.
  function Front(s: Sys): nat {
    if s.queue == [] then s.accepted else s.queue[0].ticket
  }

  predicate QueueTickets(queue: seq<Item>, accepted: nat) {
    && (forall i :: 0 <= i < |queue| ==> queue[i].ticket < accepted)
    && (forall i, j :: 0 <= i < j < |queue| ==> queue[i].ticket < queue[j].ticket)
  }

  predicate Tickets(s: Sys) {
    && QueueTickets(s.queue, s.accepted)
    && (HeldItem(s.worker).Some? ==> HeldItem(s.worker).value.ticket < Front(s))
  }

  // Everything run, or answered, so far has a smaller ticket than this.
  function RunBound(s: Sys): nat {
    match s.worker
    case Executed(item) => item.ticket + 1
    case Deliver(item) => item.ticket + 1
    case Callback(item) => item.ticket + 1
    case Release(item) => item.ticket + 1
    case _ => if HeldItem(s.worker).Some? then HeldItem(s.worker).value.ticket else Front(s)
  }

  function AnswerBound(s: Sys): nat {
    match s.worker
    case Release(item) => item.ticket + 1
    case _ => if HeldItem(s.worker).Some? then HeldItem(s.worker).value.ticket else Front(s)
  }

  predicate Once(log: seq<Event>, run: nat, answer: nat) {
    && (forall i :: 0 <= i < |log| && log[i].Ran? ==> log[i].item.ticket < run)
    && (forall i :: 0 <= i < |log| && log[i].Responded? ==> log[i].item.ticket < answer)
    && (forall i, j :: 0 <= i < j < |log| && log[i].Ran? && log[j].Ran? ==> log[i].item.ticket < log[j].item.ticket)
    && (forall i, j :: 0 <= i < j < |log| && log[i].Responded? && log[j].Responded? ==>
          log[i].item.ticket < log[j].item.ticket)
  }

  // An answer follows the run of its request.
  predicate Answered(log: seq<Event>) {
    forall j :: 0 <= j < |log| && log[j].Responded? ==> Ran(log[j].item) in log[..j]
  }

  predicate Answering(stage: Stage) {
    stage.Executed? || stage.Deliver? || stage.Callback?
  }

  predicate OnceInv(s: Sys) {
    && Tickets(s) && Once(s.log, RunBound(s), AnswerBound(s)) && Answered(s.log)
    && (Answering(s.worker) ==> Ran(s.worker.item) in s.log)
  }

  lemma ClientKeepsOnce(s: Sys, t: nat)
    requires OnceInv(s) && ClientInv(s, t)
    ensures OnceInv(GoClient(s, t))
  {
    ClientQueue(s, t);
    ClientFrame(s, t);
    ClientAccepted(s, t);
    hide GoClient;
    hide Once;
    hide Answered;
    hide ClientInv;
  }

  lemma ClientAccepted(s: Sys, t: nat)
    ensures GoClient(s, t).queue == s.queue ==> GoClient(s, t).accepted == s.accepted
  {
    hide Enter;
    if PcOf(s, t).Lock? {
      EnterFrame(s, t, PcOf(s, t).call);
    }
  }

  lemma OnceLater(log: seq<Event>, run: nat, answer: nat, run': nat, answer': nat)
    requires Once(log, run, answer) && run <= run' && answer <= answer'
    ensures Once(log, run', answer')
  {
  }

  lemma OnceGrows(log: seq<Event>, e: Event, run: nat, answer: nat)
    requires Once(log, run, answer)
    requires e.Ran? ==> e.item.ticket == run
    requires e.Responded? ==> e.item.ticket == answer
    ensures Once(log + [e], if e.Ran? then run + 1 else run, if e.Responded? then answer + 1 else answer)
  {
  }

  lemma AnsweredGrows(log: seq<Event>, e: Event)
    requires Answered(log) && (e.Responded? ==> Ran(e.item) in log)
    ensures Answered(log + [e])
  {
    var longer := log + [e];
    forall j | 0 <= j < |longer| && longer[j].Responded?
      ensures Ran(longer[j].item) in longer[..j]
    {
      if j < |log| {
        assert longer[..j] == log[..j];
      } else {
        assert longer[..j] == log;
      }
    }
  }

  lemma QueueTicketsRest(queue: seq<Item>, accepted: nat)
    requires QueueTickets(queue, accepted) && queue != []
    ensures QueueTickets(queue[1..], accepted)
    ensures queue[0].ticket < if queue[1..] == [] then accepted else queue[1..][0].ticket
  {
  }

  lemma WorkerKeepsTickets(s: Sys, ok: bool)
    requires Tickets(s)
    ensures Tickets(GoWorker(s, ok))
  {
    hide QueueTickets;
    if s.worker.Receive? && s.queue != [] {
      QueueTicketsRest(s.queue, s.accepted);
    }
  }

  lemma WorkerBounds(s: Sys, ok: bool)
    requires HeldItem(s.worker).Some? ==> HeldItem(s.worker).value.ticket < Front(s)
    ensures var s' := GoWorker(s, ok);
            && RunBound(s) <= RunBound(s') && AnswerBound(s) <= AnswerBound(s')
            && (s.worker.Execute? && s'.worker.Executed? ==>
                  RunBound(s) == s.worker.item.ticket && RunBound(s') == RunBound(s) + 1 &&
                  AnswerBound(s') == AnswerBound(s))
            && (s.worker.Callback? ==>
                  AnswerBound(s) == s.worker.item.ticket && AnswerBound(s') == AnswerBound(s) + 1 &&
                  RunBound(s') == RunBound(s))
  {
  }

  lemma WorkerAnswers(s: Sys, ok: bool)
    requires Answering(s.worker) ==> Ran(s.worker.item) in s.log
    ensures var s' := GoWorker(s, ok); Answering(s'.worker) ==> Ran(s'.worker.item) in s'.log
  {
  }

  lemma WorkerKeepsOnce(s: Sys, ok: bool)
    requires OnceInv(s)
    ensures OnceInv(GoWorker(s, ok))
  {
    var s' := GoWorker(s, ok);
    WorkerKeepsTickets(s, ok);
    WorkerBounds(s, ok);
    WorkerLog(s, ok);
    WorkerAnswers(s, ok);
    hide GoWorker;
    hide Once;
    hide Answered;
    hide Tickets;
    hide RunBound;
    hide AnswerBound;
    if s'.log == s.log {
      OnceLater(s.log, RunBound(s), AnswerBound(s), RunBound(s'), AnswerBound(s'));
    } else {
      var e := s'.log[|s.log|];
      assert s'.log == s.log + [e];
      OnceGrows(s.log, e, RunBound(s), AnswerBound(s));
      AnsweredGrows(s.log, e);
      OnceLater(s'.log, if e.Ran? then RunBound(s) + 1 else RunBound(s),
                if e.Responded? then AnswerBound(s) + 1 else AnswerBound(s), RunBound(s'), AnswerBound(s'));
    }
  }

  // ---------------------------------------------------------------- whole runs

  ghost predicate Inv(s: Sys) {
    LockInv(s) && OnceInv(s)
  }

  lemma StepKeepsInv(s: Sys, a: Action)
    requires Inv(s)
    ensures Inv(Step(s, a))
  {
    match a {
      case Start(t, call) =>
        StartKeepsLocks(s, t, call);
        assert Step(s, a) == s.(clients := Step(s, a).clients);
      case Go(t) =>
        assert ClientInv(s, t);
        ClientKeepsLocks(s, t);
        ClientKeepsOnce(s, t);
      case Work(ok) =>
        WorkerKeepsLocks(s, ok);
        WorkerKeepsOnce(s, ok);
    }
  }

  lemma {:induction false} ExecKeepsInv(s: Sys, run: seq<Action>)
    requires Inv(s)
    ensures Inv(Exec(s, run))
    decreases run
  {
    if run != [] {
      hide Step;
      hide Inv;
      StepKeepsInv(s, run[0]);
      ExecKeepsInv(Step(s, run[0]), run[1..]);
    }
  }

  // In no state of the run do the ids go round while a request is checked.
  predicate TimelyRun(s: Sys, run: seq<Action>)
    decreases run
  {
    Timely(s) && (run == [] || TimelyRun(Step(s, run[0]), run[1..]))
  }

  // A request that passes its check belongs to the live session.
  predicate ChecksOwn(s: Sys) {
    s.worker.Check? && Live(s, s.worker.item) ==>
      SlotOf(s, s.worker.item.transport).serial == s.worker.item.serial
  }

  predicate ChecksOwnAlong(s: Sys, run: seq<Action>)
    decreases run
  {
    ChecksOwn(s) && (run == [] || ChecksOwnAlong(Step(s, run[0]), run[1..]))
  }

  lemma {:induction false} TimelyAlong(s: Sys, run: seq<Action>)
    requires Inv(s)
    ensures ChecksOwnAlong(s, run) <==> TimelyRun(s, run)
    decreases run
  {
    if s.worker.Check? && Live(s, s.worker.item) && Timely(s) {
      CheckedIsCurrent(s);
    }
    if run != [] {
      hide Step;
      StepKeepsInv(s, run[0]);
      hide Inv;
      TimelyAlong(Step(s, run[0]), run[1..]);
    }
  }

  /** All requests that pass their check belong to the session then live, exactly when no id goes round on one. */
  lemma ChecksAreExact(run: seq<Action>)
    ensures ChecksOwnAlong(Init, run) <==> TimelyRun(Init, run)
  {
    InitInv();
    TimelyAlong(Init, run);
  }

  ghost predicate OrderInv(s: Sys) {
    CarriersInv(s) && RanOk(s.log)
  }

  lemma StepKeepsOrder(s: Sys, a: Action)
    requires Inv(s) && OrderInv(s) && Timely(s)
    ensures OrderInv(Step(s, a))
  {
    hide RanOk;
    hide CarriersInv;
    hide OnceInv;
    match a {
      case Start(t, call) =>
        StartKeepsCarriers(s, t, call);
        assert Step(s, a) == s.(clients := Step(s, a).clients);
      case Go(t) =>
        assert ClientInv(s, t);
        ClientKeepsCarriers(s, t);
        ClientFrame(s, t);
      case Work(ok) =>
        WorkerKeepsCarriers(s, ok);
        WorkerKeepsRanOk(s, ok);
    }
  }

  lemma {:induction false} ExecKeepsOrder(s: Sys, run: seq<Action>)
    requires Inv(s) && OrderInv(s) && TimelyRun(s, run)
    ensures OrderInv(Exec(s, run))
    decreases run
  {
    if run != [] {
      hide Step;
      hide Inv;
      hide OrderInv;
      hide Timely;
      StepKeepsInv(s, run[0]);
      StepKeepsOrder(s, run[0]);
      ExecKeepsOrder(Step(s, run[0]), run[1..]);
    }
  }

  lemma InitInv()
    ensures Inv(Init) && OrderInv(Init)
  {
  }

  /**
   For every interleaving of opens, closes, resets, submits and the worker: between running a
   request of one session and a request of another on the same transport, the processor has been
   told of the disconnect. (Unless the 32-bit ids went all the way round while a request waited.)
   */
  lemma DisconnectBetweenSessions(run: seq<Action>, i: nat, j: nat)
    requires TimelyRun(Init, run)
    requires var log := Exec(Init, run).log;
             && i < j < |log| && log[i].Ran? && log[j].Ran?
             && log[i].item.transport == log[j].item.transport && log[i].item.serial != log[j].item.serial
    ensures var log := Exec(Init, run).log;
            exists k :: i < k < j && log[k] == SessionClosed(log[i].item.transport)
  {
    InitInv();
    ExecKeepsOrder(Init, run);
    var log := Exec(Init, run).log;
    if forall k :: i < k < j ==> log[k] != SessionClosed(log[i].item.transport) {
      DirtySince(log, i, j, log[i].item.transport);
      assert false;
    }
  }

  /** Every accepted request runs at most once and is answered at most once, after its run. */
  lemma AtMostOnce(run: seq<Action>, i: nat, j: nat)
    requires i < j < |Exec(Init, run).log|
    ensures var s := Exec(Init, run);
            && (s.log[i].Ran? && s.log[j].Ran? ==> s.log[i].item.ticket != s.log[j].item.ticket)
            && (s.log[i].Responded? && s.log[j].Responded? ==> s.log[i].item.ticket != s.log[j].item.ticket)
            && (s.log[j].Responded? ==> Ran(s.log[j].item) in s.log[..j])
  {
    InitInv();
    ExecKeepsInv(Init, run);
  }

  /**
   A response callback runs under the transport's mutex while the session it answers is the live
   one: nobody can close or replace it before the callback is over.
   */
  lemma AnswersLiveSession(run: seq<Action>)
    requires Exec(Init, run).worker.Callback?
    ensures var s := Exec(Init, run);
            var item := s.worker.item;
            && SlotOf(s, item.transport).holder == Some(ByWorker)
            && SlotOf(s, item.transport).id == item.id != 0
            && (SlotOf(s, item.transport).serial == item.serial <==>
                SlotOf(s, item.transport).serial - item.serial < IDS)
            && forall t: nat :: Holds(PcOf(s, t)) != Some(item.transport)
  {
    InitInv();
    ExecKeepsInv(Init, run);
    var s := Exec(Init, run);
    var item := s.worker.item;
    var slot := SlotOf(s, item.transport);
    assert SlotInv(s, item.transport);
    if slot.serial - item.serial < IDS {
      IdsDiffer(item.serial, slot.serial);
    }
    forall t: nat
      ensures Holds(PcOf(s, t)) != Some(item.transport)
    {
      assert ClientInv(s, t);
    }
  }

  // ---------------------------------------------------------------- a full round of ids

  lemma {:induction false} ExecConcat(s: Sys, first: seq<Action>, second: seq<Action>)
    ensures Exec(s, first + second) == Exec(Exec(s, first), second)
    decreases first
  {
    hide Step;
    if first == [] {
      assert first + second == second;
    } else {
      assert (first + second)[1..] == first[1..] + second;
      ExecConcat(Step(s, first[0]), first[1..], second);
    }
  }

  lemma ExecStep(s: Sys, a: Action, rest: seq<Action>)
    ensures Exec(s, [a] + rest) == Exec(Step(s, a), rest)
  {
    hide Step;
    assert ([a] + rest)[1..] == rest;
  }

  // `n` undisturbed steps of client 0.
  function Steps(n: nat): seq<Action> {
    if n == 0 then [] else [Go(0)] + Steps(n - 1)
  }

  function Calls(call: Call, n: nat): seq<Action> {
    [Start(0, call)] + Steps(n)
  }

  // Client 0 can start, and the USB mutex is free.
  predicate Ready(s: Sys) {
    (PcOf(s, 0).Idle? || PcOf(s, 0).Done?) && s.usb.holder.None?
  }

  function Finished(s: Sys, result: Result, session: nat): Sys {
    s.(clients := s.clients[0 := Done(result, session)])
  }

  lemma FourSteps(s: Sys)
    ensures Exec(s, Steps(3)) == GoClient(GoClient(GoClient(s, 0), 0), 0)
    ensures Exec(s, Steps(4)) == GoClient(GoClient(GoClient(GoClient(s, 0), 0), 0), 0)
  {
    hide GoClient;
    var s1 := Step(s, Go(0));
    var s2 := Step(s1, Go(0));
    var s3 := Step(s2, Go(0));
    ExecStep(s, Go(0), Steps(3));
    ExecStep(s, Go(0), Steps(2));
    ExecStep(s1, Go(0), Steps(2));
    ExecStep(s1, Go(0), Steps(1));
    ExecStep(s2, Go(0), Steps(1));
    ExecStep(s2, Go(0), Steps(0));
    ExecStep(s3, Go(0), Steps(0));
  }

  lemma Unlocks(s: Sys, result: Result, session: nat)
    requires PcOf(s, 0) == Unlock(Usb, result, session)
    ensures GoClient(s, 0) == Finished(s, result, session).(usb := s.usb.(holder := None))
  {
  }

  lemma OpenEnters(s: Sys)
    requires Ready(s) && s.usb.id == 0
    ensures GoClient(Step(s, Start(0, Open(Usb, true))), 0) ==
            s.(usb := s.usb.(holder := Some(ByClient(0))), clients := s.clients[0 := OpenFetch(Usb)])
  {
    var s0 := Step(s, Start(0, Open(Usb, true)));
    assert s0 == Goto(s, 0, Lock(Open(Usb, true)));
    assert s.clients[0 := Lock(Open(Usb, true))][0 := OpenFetch(Usb)] == s.clients[0 := OpenFetch(Usb)];
  }

  lemma OpenFetches(s: Sys)
    requires PcOf(s, 0) == OpenFetch(Usb) && s.next != 0
    ensures GoClient(GoClient(s, 0), 0) ==
            s.(usb := s.usb.(id := s.next, serial := s.issued + 1), next := (s.next + 1) % WORD,
               issued := s.issued + 1, clients := s.clients[0 := Unlock(Usb, Ok, s.next)])
  {
    var s1 := GoClient(s, 0);
    assert PcOf(s1, 0) == OpenStore(Usb, s.next, s.issued + 1);
  }

  lemma CallRuns(s: Sys, call: Call)
    ensures var s0 := Step(s, Start(0, call));
            && Exec(s, Calls(call, 3)) == GoClient(GoClient(GoClient(s0, 0), 0), 0)
            && Exec(s, Calls(call, 4)) == GoClient(GoClient(GoClient(GoClient(s0, 0), 0), 0), 0)
  {
    hide GoClient;
    hide Steps;
    ExecStep(s, Start(0, call), Steps(3));
    ExecStep(s, Start(0, call), Steps(4));
    hide Step;
    FourSteps(Step(s, Start(0, call)));
  }

  function Opened(s: Sys): Sys {
    Finished(s, Ok, s.next).(usb := Slot(s.next, None, s.issued + 1), next := (s.next + 1) % WORD,
                             issued := s.issued + 1)
  }

  function Closed(s: Sys): Sys {
    Finished(s, Ok, 0).(usb := Slot(0, None, s.usb.serial), pending := s.pending + {Usb})
  }

  lemma OpenLands(s: Sys)
    requires Ready(s) && s.usb.id == 0 && s.next != 0
    ensures Exec(s, Calls(Open(Usb, true), 4)) == Opened(s)
  {
    hide GoClient;
    hide Step;
    hide Exec;
    hide Calls;
    CallRuns(s, Open(Usb, true));
    OpenEnters(s);
    var s1 := s.(usb := s.usb.(holder := Some(ByClient(0))), clients := s.clients[0 := OpenFetch(Usb)]);
    OpenFetches(s1);
    var s3 := s1.(usb := s1.usb.(id := s1.next, serial := s1.issued + 1), next := (s1.next + 1) % WORD,
                  issued := s1.issued + 1, clients := s1.clients[0 := Unlock(Usb, Ok, s1.next)]);
    Unlocks(s3, Ok, s.next);
    assert s3.clients[0 := Done(Ok, s.next)] == s.clients[0 := Done(Ok, s.next)];
  }

  lemma CloseLands(s: Sys)
    requires Ready(s) && s.usb.id != 0
    ensures Exec(s, Calls(Close(Usb, s.usb.id), 3)) == Closed(s)
  {
    CallRuns(s, Close(Usb, s.usb.id));
    hide Exec;
    hide Calls;
    var s0 := Step(s, Start(0, Close(Usb, s.usb.id)));
    var s1 := GoClient(s0, 0);
    assert PcOf(s1, 0) == FlagDisconnect(Usb);
    var s2 := GoClient(s1, 0);
    assert PcOf(s2, 0) == Unlock(Usb, Ok, 0);
  }

  lemma SubmitLands(s: Sys)
    requires Ready(s) && s.usb.id != 0 && s.queue == []
    ensures Exec(s, Calls(Submit(Usb, s.usb.id, true), 3)) ==
            Finished(s, Ok, 0).(queue := [Item(Usb, s.usb.id, s.usb.serial, s.accepted)], accepted := s.accepted + 1)
  {
    CallRuns(s, Submit(Usb, s.usb.id, true));
    hide Exec;
    hide Calls;
    var s0 := Step(s, Start(0, Submit(Usb, s.usb.id, true)));
    var s1 := GoClient(s0, 0);
    assert PcOf(s1, 0) == Send(Usb, s.usb.id);
    var s2 := GoClient(s1, 0);
    assert PcOf(s2, 0) == Unlock(Usb, Ok, 0);
  }

  // One session more, opened and closed.
  function RoundState(s: Sys, n: nat): Sys {
    s.(usb := Slot(0, None, s.issued + n), next := (s.issued + n + 1) % WORD, issued := s.issued + n)
  }

  predicate BetweenSessions(s: Sys) {
    && s.usb == Slot(0, None, s.issued) && s.next == (s.issued + 1) % WORD && s.issued <= IDS
    && Usb in s.pending && PcOf(s, 0) == Done(Ok, 0)
  }

  lemma OneRoundStates(s: Sys)
    requires BetweenSessions(s) && s.issued < IDS
    ensures Ready(s) && s.next == s.issued + 1 && Ready(Opened(s)) && Opened(s).usb.id == s.issued + 1
    ensures Closed(Opened(s)) == RoundState(s, 1)
    ensures BetweenSessions(RoundState(s, 1))
  {
    assert s.clients[0 := Done(Ok, s.next)][0 := Done(Ok, 0)] == s.clients;
    assert s.pending + {Usb} == s.pending;
  }

  lemma OneRound(s: Sys)
    requires BetweenSessions(s) && s.issued < IDS
    ensures Exec(s, Calls(Open(Usb, true), 4) + Calls(Close(Usb, s.issued + 1), 3)) == RoundState(s, 1)
    ensures BetweenSessions(RoundState(s, 1))
  {
    OneRoundStates(s);
    hide Calls;
    hide Exec;
    hide Opened;
    hide Closed;
    hide RoundState;
    hide Ready;
    hide PcOf;
    var open, close := Calls(Open(Usb, true), 4), Calls(Close(Usb, s.issued + 1), 3);
    ExecConcat(s, open, close);
    OpenLands(s);
    CloseLands(Opened(s));
  }

  // Sessions `k + 1` .. `k + n` are opened and closed.
  function RoundRun(k: nat, n: nat): seq<Action>
    decreases n
  {
    if n == 0 then []
    else Calls(Open(Usb, true), 4) + Calls(Close(Usb, k + 1), 3) + RoundRun(k + 1, n - 1)
  }

  lemma {:induction false} RoundLands(s: Sys, n: nat)
    requires BetweenSessions(s) && s.issued + n <= IDS
    ensures Exec(s, RoundRun(s.issued, n)) == RoundState(s, n)
    decreases n
  {
    if n == 0 {
      assert s == RoundState(s, 0);
    } else {
      hide Calls;
      hide Step;
      var one, rest := Calls(Open(Usb, true), 4) + Calls(Close(Usb, s.issued + 1), 3), RoundRun(s.issued + 1, n - 1);
      ExecConcat(s, one, rest);
      OneRound(s);
      RoundLands(RoundState(s, 1), n - 1);
    }
  }

  // The id after 2^32 - 1 is skipped, and the next session gets id 1 again.
  lemma OpenWraps(s: Sys)
    requires BetweenSessions(s) && s.issued == IDS
    ensures Exec(s, Calls(Open(Usb, true), 5)) ==
            Finished(s, Ok, 1).(usb := Slot(1, None, IDS + 1), next := 2, issued := IDS + 1)
  {
    hide GoClient;
    var s0 := Step(s, Start(0, Open(Usb, true)));
    ExecStep(s, Start(0, Open(Usb, true)), Steps(5));
    ExecStep(s0, Go(0), Steps(4));
    assert Steps(5) == [Go(0)] + Steps(4);
    OpenEnters(s);
    var s1 := GoClient(s0, 0);
    ExecStep(s1, Go(0), Steps(3));
    assert Steps(4) == [Go(0)] + Steps(3);
    SkipsZero(s1);
    var s2 := GoClient(s1, 0);
    FourSteps(s2);
    OpenFetches(s2);
    hide Step;
    hide Steps;
    var s4 := GoClient(GoClient(s2, 0), 0);
    Unlocks(s4, Ok, 1);
    assert s4.clients[0 := Done(Ok, 1)] == s.clients[0 := Done(Ok, 1)];
  }

  lemma SkipsZero(s: Sys)
    requires PcOf(s, 0) == OpenFetch(Usb) && s.next == 0
    ensures GoClient(s, 0) == s.(next := 1)
  {
  }

  // The worker, undisturbed: `n` steps in which everything is in time.
  function Works(n: nat): seq<Action> {
    if n == 0 then [] else [Work(true)] + Works(n - 1)
  }

  lemma {:induction false} WorksStep(s: Sys, n: nat)
    requires n > 0
    ensures Exec(s, Works(n)) == Exec(GoWorker(s, true), Works(n - 1))
  {
    hide GoWorker;
    ExecStep(s, Work(true), Works(n - 1));
  }

  // From an empty hand to the executed request.
  lemma WorkerTakes(s: Sys, item: Item)
    requires s.worker == Closing({}, None) && s.queue == [item] && s.pending == {} && Live(s, item)
    ensures Exec(s, Works(6)) == s.(queue := [], worker := Executed(item), log := s.log + [Ran(item)])
  {
    var s1 := s.(worker := Receive);
    var s2 := s.(worker := Drain(item), queue := []);
    var s3 := s2.(worker := Closing({}, Some(item)));
    var s4 := s2.(worker := Check(item));
    var s5 := s2.(worker := Execute(item));
    assert GoWorker(s, true) == s1;
    assert GoWorker(s1, true) == s2;
    assert GoWorker(s2, true) == s3;
    assert GoWorker(s3, true) == s4;
    assert GoWorker(s4, true) == s5;
    assert GoWorker(s5, true) == s2.(worker := Executed(item), log := s.log + [Ran(item)]);
    hide GoWorker;
    WorksStep(s, 6);
    WorksStep(s1, 5);
    WorksStep(s2, 4);
    WorksStep(s3, 3);
    WorksStep(s4, 2);
    WorksStep(s5, 1);
  }

  // No answer to send: back to polling, and the pending disconnects are taken.
  lemma WorkerPolls(s: Sys)
    requires s.worker.Executed? && s.pending == {}
    ensures Exec(s, [Work(false)] + Works(1)) == s.(worker := Closing({}, None))
  {
    var s1 := s.(worker := Poll);
    assert GoWorker(s, false) == s1;
    assert GoWorker(s1, true) == s.(worker := Closing({}, None));
    ExecStep(s, Work(false), Works(1));
    hide GoWorker;
    WorksStep(s1, 1);
  }

  lemma WorkerDrains(s: Sys)
    requires s.worker == Poll && s.pending == {Usb}
    ensures Exec(s, Works(2)) == s.(pending := {}, worker := Closing({}, None), log := s.log + [SessionClosed(Usb)])
  {
    var s1 := s.(pending := {}, worker := Closing({Usb}, None));
    assert GoWorker(s, true) == s1;
    assert {Usb} - {Usb} == {};
    assert GoWorker(s1, true) == s1.(worker := Closing({}, None), log := s.log + [SessionClosed(Usb)]);
    hide GoWorker;
    WorksStep(s, 2);
    WorksStep(s1, 1);
  }

  // The first session, its request and its end.
  function FirstRun(): seq<Action> {
    Calls(Open(Usb, true), 4) + (Calls(Submit(Usb, 1, true), 3) + Calls(Close(Usb, 1), 3))
  }

  const FirstItem := Item(Usb, 1, 1, 0)

  function AfterFirst(): Sys {
    Init.(usb := Slot(0, None, 1), pending := {Usb}, next := 2, issued := 1, accepted := 1,
          queue := [FirstItem], clients := map[0 := Done(Ok, 0)])
  }

  lemma FirstLands()
    ensures Exec(Init, FirstRun()) == AfterFirst()
  {
    hide Calls;
    hide Exec;
    var open, submit, close := Calls(Open(Usb, true), 4), Calls(Submit(Usb, 1, true), 3), Calls(Close(Usb, 1), 3);
    ExecConcat(Init, open, submit + close);
    OpenLands(Init);
    var s1 := Finished(Init, Ok, 1).(usb := Slot(1, None, 1), next := 2, issued := 1);
    ExecConcat(s1, submit, close);
    SubmitLands(s1);
    var s2 := Finished(s1, Ok, 0).(queue := [FirstItem], accepted := 1);
    CloseLands(s2);
    assert s2.clients[0 := Done(Ok, 0)] == map[0 := Done(Ok, 0)];
    assert s2.pending + {Usb} == {Usb};
  }

  // The worker meets the old request under the new session, and then a request of the new one.
  function LastRun(): seq<Action> {
    Works(2) + (Works(6) + (([Work(false)] + Works(1)) + (Calls(Submit(Usb, 1, true), 3) + Works(6))))
  }

  lemma LastLands(s: Sys)
    requires s.worker == Poll && s.pending == {Usb} && s.queue == [FirstItem] && Ready(s)
    requires s.usb.id == 1 && s.log == []
    ensures Exec(s, LastRun()).log ==
            [SessionClosed(Usb), Ran(FirstItem), Ran(Item(Usb, 1, s.usb.serial, s.accepted))]
  {
    hide Calls;
    hide Works;
    hide Step;
    var submit := Calls(Submit(Usb, 1, true), 3);
    var poll := [Work(false)] + Works(1);
    ExecConcat(s, Works(2), Works(6) + (poll + (submit + Works(6))));
    WorkerDrains(s);
    var s1 := Exec(s, Works(2));
    ExecConcat(s1, Works(6), poll + (submit + Works(6)));
    WorkerTakes(s1, FirstItem);
    var s2 := Exec(s1, Works(6));
    ExecConcat(s2, poll, submit + Works(6));
    WorkerPolls(s2);
    var s3 := Exec(s2, poll);
    ExecConcat(s3, submit, Works(6));
    SubmitLands(s3);
    var s4 := Exec(s3, submit);
    WorkerTakes(s4, Item(Usb, 1, s.usb.serial, s.accepted));
  }

  /**
   The condition of `DisconnectBetweenSessions` cannot be dropped: when 2^32 - 1 sessions come and
   go while a request waits in the queue, that request runs under the session that got its id back,
   and nothing separates it from that session's own requests.
   */
  lemma FullRoundOfIds(rounds: nat) returns (run: seq<Action>)
    requires rounds == IDS - 1
    ensures var log := Exec(Init, run).log;
            && |log| == 3 && log[1].Ran? && log[2].Ran?
            && log[1].item.transport == log[2].item.transport == Usb
            && log[1].item.serial == 1 && log[2].item.serial == IDS + 1
  {
    hide Calls;
    hide Step;
    hide FirstRun;
    hide LastRun;
    hide RoundRun;
    var s1 := AfterFirst();
    FirstLands();
    RoundLands(s1, rounds);
    var s2 := RoundState(s1, rounds);
    OpenWraps(s2);
    var open := Calls(Open(Usb, true), 5);
    var s3 := Exec(s2, open);
    LastLands(s3);
    ExecConcat(Init, FirstRun(), RoundRun(1, rounds) + (open + LastRun()));
    ExecConcat(s1, RoundRun(1, rounds), open + LastRun());
    ExecConcat(s2, open, LastRun());
    run := FirstRun() + (RoundRun(1, rounds) + (open + LastRun()));
  }
}
