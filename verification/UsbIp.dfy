/**
 The tasks of a USB/IP session in `host/src/usbip.rs`: the receiver, the three endpoint workers and
 the UART reader, sharing one `State` under a lock. One step per locked section. The room left in
 the channel to the peer, the answers of the backend and everything the peer sends are inputs; a
 task that hits an error stops, and the others may go on.
 */
module UsbIp {
  import opened Bytes
  import opened Options
  import opened UsbIpState

  const STALL := -32
  const NO_MEMORY := -12
  const MAX_REQUEST := 508
  const MAX_READ := 256
  const LINE_NOTIFICATION: seq<Byte> := [0xA1, 0x20, 0, 0, 1, 0, 2, 0, 0, 0]

  datatype Stage =
    | Waiting
    | Taken(urb: Urb)
    | Busy(urb: Urb)
    | Spaced(urb: Urb)
    | Asking(urb: Urb)
    | Stalling(urb: Urb)
    | Stopped

  datatype Reader = Looking | Fetching(capacity: nat) | Delivering | Halted

  /**
   `born` (every URB accepted), `dap` and `uart` (what the backend answered) and `intact` (no flush of
   responses has been refused) are history.
   */
  datatype Sys = Sys(
    value: Value, queue0: seq<Urb>, queue1: seq<Urb>, queue3: seq<Urb>, active: set<nat>, line: bool,
    receiving: bool, worker0: Stage, worker1: Stage, worker3: Stage, reader: Reader, buffered: seq<Byte>,
    born: seq<Urb>, dap: seq<seq<Byte>>, uart: seq<Byte>, intact: bool)

  const Init := Sys(Value([], [], [], 0, []), [], [], [], {}, false,
                    true, Waiting, Waiting, Waiting, Looking, [], [], [], [], true)

  /** `room` is what the channel to the peer can take during the step. */
  datatype Action =
    | Submit(room: nat, seqnum: nat, direction: Direction, ep: nat, size: nat, queued: bool)
    | Unlink(room: nat, seqnum: nat, target: nat)
    | Work0(room: nat, choice: Control)
    | Work1(room: nat, response: Option<seq<Byte>>)
    | Work3(room: nat, ok: bool)
    | Read(room: nat, answer: Option<seq<Byte>>)

  /** What a control request comes to: an error, a line change on the way, or its answer. */
  datatype Control = Fail | SetLine(on: bool) | Answer(data: Option<seq<Byte>>)

  function Prefix(data: seq<Byte>, n: nat): seq<Byte> { if |data| <= n then data else data[..n] }

  // ---------------------------------------------------------------- the receiver

  function WithSeq(pending: seq<Urb>, seqnum: nat): (found: Option<Urb>)
    ensures found.Some? ==> found.value in pending && found.value.seqnum == seqnum
    ensures found.None? ==> forall u :: u in pending ==> u.seqnum != seqnum
  {
    if pending == [] then None
    else if pending[0].seqnum == seqnum then Some(pending[0])
    else WithSeq(pending[1..], seqnum)
  }

  function Cancel(v: Value, seqnum: nat, target: nat): Outcome {
    var found := WithSeq(v.pending, target);
    Send(if found.None? then v else v.(pending := Without(v.pending, found.value.id)), RetUnlink(seqnum, found))
  }

  // Completing or flushing may stop the receiver.
  function Received(s: Sys, d: Outcome): Sys {
    s.(value := d.value, receiving := d.ok)
  }

  function Flushed(s: Sys): Sys {
    s.(value := Flush(s.value).value, intact := s.intact && FlushResponses(s.value).ok)
  }

  predicate ForWorker(urb: Urb) {
    urb.ep == 0 || ((urb.ep == 1 || urb.ep == 3) && urb.direction == Out)
  }

  function Enqueue(s: Sys, urb: Urb): Sys {
    if urb.ep == 0 then s.(queue0 := s.queue0 + [urb])
    else if urb.ep == 1 then s.(queue1 := s.queue1 + [urb])
    else s.(queue3 := s.queue3 + [urb])
  }

  // The new URB has been accepted as pending.
  function Placed(s: Sys, urb: Urb, queued: bool): Sys {
    if ForWorker(urb) then
      if queued then Enqueue(s, urb) else Received(s, Complete(s.value, urb, [], NO_MEMORY))
    else if 1 <= urb.ep <= 3 && urb.direction == In then
      if urb.size == 0 then Received(s, Complete(s.value, urb, [], 0))
      else Flushed(s).(receiving := Flush(s.value).ok)
    else Received(s, Complete(s.value, urb, [], STALL))
  }

  function Submitted(s: Sys, seqnum: nat, direction: Direction, ep: nat, size: nat, queued: bool): Sys {
    if |s.value.pending| >= MAX_PENDING || WithSeq(s.value.pending, seqnum).Some? then s.(receiving := false)
    else
      var urb := Urb(|s.born|, seqnum, direction, ep, size);
      Placed(s.(value := s.value.(pending := s.value.pending + [urb]), born := s.born + [urb]), urb, queued)
  }

  function Unlinked(s: Sys, seqnum: nat, target: nat): Sys {
    var found := WithSeq(s.value.pending, target);
    var d := Cancel(s.value, seqnum, target);
    s.(value := d.value, receiving := d.ok && !(found.Some? && found.value.id in s.active))
  }

  // ---------------------------------------------------------------- the workers

  // Take the next URB, and go on with it only if it is still pending.
  function Checked(s: Sys, urb: Urb): (Sys, Stage) {
    if Present(s.value.pending, urb.id) then (s.(active := s.active + {urb.id}), Busy(urb)) else (s, Waiting)
  }

  function Ended(ok: bool): Stage { if ok then Waiting else Stopped }

  function Worker0(s: Sys, choice: Control): Sys {
    match s.worker0
    case Waiting => if s.queue0 == [] then s else s.(queue0 := s.queue0[1..], worker0 := Taken(s.queue0[0]))
    case Taken(urb) => var (s1, stage) := Checked(s, urb); s1.(worker0 := stage)
    case Busy(urb) =>
      (match choice
       case Fail => s.(worker0 := Stopped)
       case SetLine(on) =>
         var s1 := s.(line := on, value := s.value.(notification := LINE_NOTIFICATION));
         Flushed(s1).(worker0 := if Flush(s1.value).ok then Busy(urb) else Stopped)
       case Answer(data) =>
         var d := if data.Some? then Complete(s.value, urb, Prefix(data.value, urb.size), 0)
                  else Complete(s.value, urb, [], STALL);
         s.(value := d.value, worker0 := Ended(d.ok)))
    case _ => s
  }

  // The answer to a DAP request joins the queue, the request completes, and the queue is flushed.
  function Responded(s: Sys, urb: Urb, response: seq<Byte>): Sys {
    var s1 := s.(value := s.value.(responses := s.value.responses + [response]), dap := s.dap + [response]);
    var d := Complete(s1.value, urb, [], 0);
    var s2 := s1.(value := d.value);
    if !d.ok then s2.(worker1 := Stopped) else Flushed(s2).(worker1 := Ended(Flush(s2.value).ok))
  }

  function Worker1(s: Sys, response: Option<seq<Byte>>): Sys {
    match s.worker1
    case Waiting => if s.queue1 == [] then s else s.(queue1 := s.queue1[1..], worker1 := Taken(s.queue1[0]))
    case Taken(urb) => var (s1, stage) := Checked(s, urb); s1.(worker1 := stage)
    case Busy(urb) =>
      if !(1 <= urb.size <= MAX_REQUEST) then
        var d := Complete(s.value, urb, [], STALL);
        s.(value := d.value, worker1 := Ended(d.ok))
      else if |s.value.responses| < MAX_RESPONSES then s.(worker1 := Spaced(urb))
      else s
    case Spaced(urb) => s.(worker1 := if Present(s.value.pending, urb.id) then Asking(urb) else Waiting)
    case Asking(urb) =>
      if response.None? || response.value == [] || |response.value| > MAX_REQUEST then s.(worker1 := Stopped)
      else Responded(s, urb, response.value)
    case _ => s
  }

  function Worker3(s: Sys, ok: bool): Sys {
    match s.worker3
    case Waiting => if s.queue3 == [] then s else s.(queue3 := s.queue3[1..], worker3 := Taken(s.queue3[0]))
    case Taken(urb) => var (s1, stage) := Checked(s, urb); s1.(worker3 := stage)
    case Busy(urb) =>
      s.(worker3 := if !s.line then Stalling(urb) else if ok then Asking(urb) else Stopped)
    case Stalling(urb) =>
      var d := Complete(s.value, urb, [], STALL);
      s.(value := d.value, worker3 := Ended(d.ok))
    case Asking(urb) =>
      var d := Complete(s.value, urb, [], 0);
      s.(value := d.value, worker3 := Ended(d.ok))
    case _ => s
  }

  // ---------------------------------------------------------------- the UART reader

  function ReadOn(s: Sys, answer: Option<seq<Byte>>): Sys {
    match s.reader
    case Looking =>
      var found := FirstInput(s.value.pending, 3);
      if found.None? then s
      else if s.buffered == [] then s.(reader := Fetching(Min(found.value.size, MAX_READ)))
      else s.(reader := Delivering)
    case Fetching(capacity) =>
      if answer.None? || |answer.value| > capacity then s.(reader := Halted)
      else s.(buffered := answer.value, uart := s.uart + answer.value, reader := Delivering)
    case Delivering =>
      var found := FirstInput(s.value.pending, 3);
      if found.None? || s.buffered == [] then s.(reader := Looking)
      else
        var size := Min(found.value.size, |s.buffered|);
        var d := Complete(s.value, found.value, s.buffered[..size], 0);
        if d.ok then s.(value := d.value, buffered := s.buffered[size..], reader := Looking)
        else s.(value := d.value, reader := Halted)
    case Halted => s
  }

  function Step(s: Sys, a: Action): Sys {
    var s1 := s.(value := s.value.(room := a.room));
    match a
    case Submit(_, seqnum, direction, ep, size, queued) =>
      if s.receiving then Submitted(s1, seqnum, direction, ep, size, queued) else s1
    case Unlink(_, seqnum, target) => if s.receiving then Unlinked(s1, seqnum, target) else s1
    case Work0(_, choice) => Worker0(s1, choice)
    case Work1(_, response) => Worker1(s1, response)
    case Work3(_, ok) => Worker3(s1, ok)
    case Read(_, answer) => ReadOn(s1, answer)
  }

  function Exec(s: Sys, run: seq<Action>): Sys
    decreases run
  {
    if run == [] then s else Exec(Step(s, run[0]), run[1..])
  }

  // ---------------------------------------------------------------- the invariant

  // An identity stands for one URB.
  predicate Known(born: seq<Urb>, urb: Urb) {
    urb.id < |born| && born[urb.id] == urb
  }

  function HeldBy(stage: Stage): Option<Urb> {
    if stage.Waiting? || stage.Stopped? then None else Some(stage.urb)
  }

  predicate WorkerOk(born: seq<Urb>, queue: seq<Urb>, stage: Stage, ep: nat) {
    && (forall i :: 0 <= i < |queue| ==> Known(born, queue[i]) && queue[i].ep == ep && ForWorker(queue[i]))
    && (HeldBy(stage).Some? ==>
          var urb := HeldBy(stage).value; Known(born, urb) && urb.ep == ep && ForWorker(urb))
  }

  predicate BornOk(born: seq<Urb>, pending: seq<Urb>) {
    && (forall i :: 0 <= i < |born| ==> born[i].id == i)
    && (forall u :: u in pending ==> Known(born, u))
  }

  predicate SpacedOk(responses: seq<seq<Byte>>, worker1: Stage) {
    && |responses| <= MAX_RESPONSES
    && (worker1.Spaced? || worker1.Asking? ==> |responses| < MAX_RESPONSES)
  }

  predicate SpellsOk(s: Sys) {
    && (s.intact ==> Spelled(s.value.sent, 1) + Flat(s.value.responses) == Flat(s.dap))
    && (!s.intact ==> |Spelled(s.value.sent, 1)| + |Flat(s.value.responses)| < |Flat(s.dap)|)
    && Spelled(s.value.sent, 3) + s.buffered == s.uart
  }

  predicate Inv(s: Sys) {
    && Valid(s.value, |s.born|) && BornOk(s.born, s.value.pending)
    && WorkerOk(s.born, s.queue0, s.worker0, 0) && WorkerOk(s.born, s.queue1, s.worker1, 1)
    && WorkerOk(s.born, s.queue3, s.worker3, 3)
    && SpacedOk(s.value.responses, s.worker1) && SpellsOk(s)
  }

  // ---------------------------------------------------------------- what every task keeps

  lemma KnownIsPending(s: Sys, urb: Urb)
    requires BornOk(s.born, s.value.pending) && Known(s.born, urb) && Present(s.value.pending, urb.id)
    ensures urb in s.value.pending
  {
    var i :| 0 <= i < |s.value.pending| && s.value.pending[i].id == urb.id;
    assert s.value.pending[i] in s.value.pending;
  }

  lemma RoomKeeps(s: Sys, room: nat)
    requires Inv(s)
    ensures Inv(s.(value := s.value.(room := room)))
  {
    hide Distinct;
    hide Once;
    hide Below;
    hide Fits;
    hide Spelled;
    hide Flat;
  }

  // A completion that delivers nothing on EP1 or EP3.
  lemma CompleteStep(s: Sys, urb: Urb, data: seq<Byte>, status: int)
    requires Inv(s) && Known(s.born, urb)
    requires status == 0 && urb.direction == In ==> |data| <= urb.size
    requires Piece(Reply(urb, data, status), 1) == [] && Piece(Reply(urb, data, status), 3) == []
    ensures Inv(s.(value := Complete(s.value, urb, data, status).value))
  {
    hide Spelled;
    hide Flat;
    hide WorkerOk;
    hide Complete;
    hide Distinct;
    hide Once;
    hide Below;
    hide Fits;
    hide Present;
    if Present(s.value.pending, urb.id) {
      KnownIsPending(s, urb);
    }
    CompleteKeeps(s.value, |s.born|, urb, data, status);
    CompletePending(s.value, urb, data, status);
    CompleteFrame(s.value, urb, data, status);
    CompleteSpells(s.value, urb, data, status, 1);
    CompleteSpells(s.value, urb, data, status, 3);
    hide Valid;
  }

  lemma FlushStep(s: Sys)
    requires Inv(s)
    ensures Inv(Flushed(s))
  {
    FlushKeeps(s.value, |s.born|);
    hide Valid;
    hide Spelled;
    hide Flat;
    hide Flush;
    hide FlushResponses;
    hide WorkerOk;
    assert |Spelled(s.value.sent, 1) + Flat(s.value.responses)| ==
        |Spelled(s.value.sent, 1)| + |Flat(s.value.responses)|;
    var v := Flushed(s).value;
    assert |Spelled(v.sent, 1) + Flat(v.responses)| == |Spelled(v.sent, 1)| + |Flat(v.responses)|;
  }

  // ---------------------------------------------------------------- the receiver

  lemma BirthKeeps(s: Sys, urb: Urb)
    requires Inv(s) && |s.value.pending| < MAX_PENDING && WithSeq(s.value.pending, urb.seqnum).None?
    requires urb.id == |s.born|
    ensures var s' := s.(value := s.value.(pending := s.value.pending + [urb]), born := s.born + [urb]);
            Inv(s') && Known(s'.born, urb)
  {
    hide Spelled;
    hide Flat;
    var s' := s.(value := s.value.(pending := s.value.pending + [urb]), born := s.born + [urb]);
    forall i | 0 <= i < |s.value.pending|
      ensures s.value.pending[i].id < urb.id && s.value.pending[i].seqnum != urb.seqnum
    {
      assert s.value.pending[i] in s.value.pending;
    }
    KnownLater(s, s');
  }

  lemma KnownLater(s: Sys, s': Sys)
    requires |s.born| <= |s'.born| && s'.born[..|s.born|] == s.born
    requires s'.queue0 == s.queue0 && s'.queue1 == s.queue1 && s'.queue3 == s.queue3
    requires s'.worker0 == s.worker0 && s'.worker1 == s.worker1 && s'.worker3 == s.worker3
    requires WorkerOk(s.born, s.queue0, s.worker0, 0) && WorkerOk(s.born, s.queue1, s.worker1, 1)
    requires WorkerOk(s.born, s.queue3, s.worker3, 3)
    ensures WorkerOk(s'.born, s'.queue0, s'.worker0, 0) && WorkerOk(s'.born, s'.queue1, s'.worker1, 1)
    ensures WorkerOk(s'.born, s'.queue3, s'.worker3, 3)
  {
    forall u | Known(s.born, u)
      ensures Known(s'.born, u)
    {
      assert s'.born[..|s.born|][u.id] == s.born[u.id];
    }
  }

  lemma ReceiverKeeps(s: Sys, receiving: bool)
    requires Inv(s)
    ensures Inv(s.(receiving := receiving))
  {
    hide Valid;
    hide Spelled;
    hide Flat;
  }

  lemma EnqueueKeeps(s: Sys, urb: Urb)
    requires Inv(s) && Known(s.born, urb) && ForWorker(urb)
    ensures Inv(Enqueue(s, urb))
  {
    hide Valid;
    hide Spelled;
    hide Flat;
    hide BornOk;
  }

  lemma PlacedKeeps(s: Sys, urb: Urb, queued: bool)
    requires Inv(s) && Known(s.born, urb)
    ensures Inv(Placed(s, urb, queued))
  {
    hide Inv;
    hide Complete;
    hide Flush;
    hide FlushResponses;
    if ForWorker(urb) {
      if queued {
        EnqueueKeeps(s, urb);
      } else {
        CompleteStep(s, urb, [], NO_MEMORY);
        ReceiverKeeps(s.(value := Complete(s.value, urb, [], NO_MEMORY).value),
                      Complete(s.value, urb, [], NO_MEMORY).ok);
      }
    } else if 1 <= urb.ep <= 3 && urb.direction == In && urb.size > 0 {
      FlushStep(s);
      ReceiverKeeps(Flushed(s), Flush(s.value).ok);
    } else {
      var status := if 1 <= urb.ep <= 3 && urb.direction == In then 0 else STALL;
      CompleteStep(s, urb, [], status);
      ReceiverKeeps(s.(value := Complete(s.value, urb, [], status).value), Complete(s.value, urb, [], status).ok);
    }
  }

  lemma SubmittedKeeps(s: Sys, seqnum: nat, direction: Direction, ep: nat, size: nat, queued: bool)
    requires Inv(s)
    ensures Inv(Submitted(s, seqnum, direction, ep, size, queued))
  {
    if |s.value.pending| >= MAX_PENDING || WithSeq(s.value.pending, seqnum).Some? {
      ReceiverKeeps(s, false);
    } else {
      var urb := Urb(|s.born|, seqnum, direction, ep, size);
      var s1 := s.(value := s.value.(pending := s.value.pending + [urb]), born := s.born + [urb]);
      BirthKeeps(s, urb);
      PlacedKeeps(s1, urb, queued);
    }
  }

  lemma CancelSpells(v: Value, seqnum: nat, target: nat, ep: nat)
    ensures Spelled(Cancel(v, seqnum, target).value.sent, ep) == Spelled(v.sent, ep)
  {
    SpelledAppends(v.sent, RetUnlink(seqnum, WithSeq(v.pending, target)), ep);
    hide Spelled;
    assert Spelled(v.sent, ep) + [] == Spelled(v.sent, ep);
  }

  lemma CancelKeeps(v: Value, n: nat, seqnum: nat, target: nat)
    requires Valid(v, n)
    ensures var d := Cancel(v, seqnum, target);
            && Valid(d.value, n) && d.value.responses == v.responses
            && (forall u :: u in d.value.pending ==> u in v.pending)
  {
    var found := WithSeq(v.pending, target);
    var p := RetUnlink(seqnum, found);
    if found.Some? {
      WithoutKeeps(v.pending, found.value.id);
      OnceShrinks(v.pending, v.sent, found.value.id);
      OnceGrows(v.pending, v.sent, found.value, p);
      BelowKeeps(v.pending, Without(v.pending, found.value.id), v.sent, p, n);
    } else {
      BelowKeeps(v.pending, v.pending, v.sent, p, n);
      OnceUnanswered(v.pending, v.sent, p);
    }
    hide Without;
    hide Distinct;
    hide Once;
    hide Below;
  }

  lemma BelowKeeps(pending: seq<Urb>, rest: seq<Urb>, sent: seq<Packet>, p: Packet, n: nat)
    requires Below(pending, sent, n) && (forall u :: u in rest ==> u in pending)
    requires Answers(p).Some? ==> Answers(p).value in pending
    ensures Below(rest, sent, n) && Below(rest, sent + [p], n)
  {
  }

  lemma OnceUnanswered(pending: seq<Urb>, sent: seq<Packet>, p: Packet)
    requires Once(pending, sent) && Answers(p).None?
    ensures Once(pending, sent + [p])
  {
  }

  lemma UnlinkedKeeps(s: Sys, seqnum: nat, target: nat)
    requires Inv(s)
    ensures Inv(Unlinked(s, seqnum, target))
  {
    CancelKeeps(s.value, |s.born|, seqnum, target);
    CancelSpells(s.value, seqnum, target, 1);
    CancelSpells(s.value, seqnum, target, 3);
    hide Cancel;
    hide Valid;
    hide Spelled;
    hide Flat;
    hide WorkerOk;
  }

  // ---------------------------------------------------------------- the workers

  lemma StageKeeps(s: Sys, s': Sys)
    requires Inv(s)
    requires s'.value == s.value && s'.born == s.born && s'.buffered == s.buffered
    requires s'.dap == s.dap && s'.uart == s.uart && s'.intact == s.intact
    requires WorkerOk(s'.born, s'.queue0, s'.worker0, 0) && WorkerOk(s'.born, s'.queue1, s'.worker1, 1)
    requires WorkerOk(s'.born, s'.queue3, s'.worker3, 3)
    requires SpacedOk(s'.value.responses, s'.worker1)
    ensures Inv(s')
  {
    hide Valid;
    hide Spelled;
    hide Flat;
    hide WorkerOk;
  }

  // A worker at rest, or with the URB it has or takes next.
  lemma WorkerMoves(born: seq<Urb>, queue: seq<Urb>, stage: Stage, ep: nat)
    requires WorkerOk(born, queue, stage, ep)
    ensures WorkerOk(born, queue, Waiting, ep) && WorkerOk(born, queue, Stopped, ep)
    ensures queue != [] ==> WorkerOk(born, queue[1..], Taken(queue[0]), ep)
    ensures HeldBy(stage).Some? ==>
              var urb := HeldBy(stage).value;
              && WorkerOk(born, queue, Busy(urb), ep) && WorkerOk(born, queue, Spaced(urb), ep)
              && WorkerOk(born, queue, Asking(urb), ep) && WorkerOk(born, queue, Stalling(urb), ep)
              && Known(born, urb) && urb.ep == ep && ForWorker(urb)
  {
  }

  lemma InvWorkers(s: Sys)
    requires Inv(s)
    ensures WorkerOk(s.born, s.queue0, s.worker0, 0) && WorkerOk(s.born, s.queue1, s.worker1, 1)
    ensures WorkerOk(s.born, s.queue3, s.worker3, 3) && SpacedOk(s.value.responses, s.worker1)
  {
  }

  lemma CheckedKeeps(s: Sys, urb: Urb)
    ensures var s' := Checked(s, urb).0; s' == s.(active := s'.active)
    ensures Checked(s, urb).1 == Waiting || Checked(s, urb).1 == Busy(urb)
  {
  }

  lemma Worker0Keeps(s: Sys, choice: Control)
    requires Inv(s)
    ensures Inv(Worker0(s, choice))
  {
    hide Inv;
    InvWorkers(s);
    WorkerMoves(s.born, s.queue0, s.worker0, 0);
    hide WorkerOk;
    hide Complete;
    hide Flush;
    hide FlushResponses;
    hide Checked;
    match s.worker0 {
      case Waiting =>
        if s.queue0 != [] {
          StageKeeps(s, s.(queue0 := s.queue0[1..], worker0 := Taken(s.queue0[0])));
        }
      case Taken(urb) =>
        CheckedKeeps(s, urb);
        StageKeeps(s, Checked(s, urb).0.(worker0 := Checked(s, urb).1));
      case Busy(urb) =>
        if choice.Fail? {
          StageKeeps(s, s.(worker0 := Stopped));
        } else if choice.SetLine? {
          var s1 := s.(line := choice.on, value := s.value.(notification := LINE_NOTIFICATION));
          NotifyKeeps(s, choice.on);
          FlushStep(s1);
          InvWorkers(Flushed(s1));
          hide Flushed;
          StageKeeps(Flushed(s1), Flushed(s1).(worker0 := if Flush(s1.value).ok then Busy(urb) else Stopped));
        } else {
          var data := if choice.data.Some? then Prefix(choice.data.value, urb.size) else [];
          var status := if choice.data.Some? then 0 else STALL;
          CompleteStep(s, urb, data, status);
          var d := Complete(s.value, urb, data, status);
          InvWorkers(s.(value := d.value));
          StageKeeps(s.(value := d.value), s.(value := d.value, worker0 := Ended(d.ok)));
        }
      case _ =>
    }
  }

  lemma NotifyKeeps(s: Sys, on: bool)
    requires Inv(s)
    ensures Inv(s.(line := on, value := s.value.(notification := LINE_NOTIFICATION)))
  {
    hide Distinct;
    hide Once;
    hide Below;
    hide Fits;
    hide Spelled;
    hide Flat;
    hide WorkerOk;
    hide BornOk;
  }

  lemma ResponseJoins(s: Sys, response: seq<Byte>)
    requires Inv(s) && s.worker1.Asking? && response != []
    ensures Inv(s.(value := s.value.(responses := s.value.responses + [response]), dap := s.dap + [response],
                   worker1 := Waiting))
  {
    WorkerMoves(s.born, s.queue1, s.worker1, 1);
    FlatAppends(s.value.responses, response);
    FlatAppends(s.dap, response);
    hide Distinct;
    hide Once;
    hide Below;
    hide Fits;
    hide Spelled;
    hide Flat;
    hide WorkerOk;
    hide BornOk;
    var front := Spelled(s.value.sent, 1);
    assert front + (Flat(s.value.responses) + response) == (front + Flat(s.value.responses)) + response;
  }

  lemma RespondedKeeps(s: Sys, urb: Urb, response: seq<Byte>)
    requires Inv(s) && s.worker1 == Asking(urb) && response != []
    ensures Inv(Responded(s, urb, response))
  {
    WorkerMoves(s.born, s.queue1, s.worker1, 1);
    ResponseJoins(s, response);
    hide WorkerOk;
    hide Valid;
    hide SpellsOk;
    hide BornOk;
    hide Complete;
    hide Flush;
    hide FlushResponses;
    var s1 := s.(value := s.value.(responses := s.value.responses + [response]), dap := s.dap + [response],
                 worker1 := Waiting);
    CompleteStep(s1, urb, [], 0);
    var s2 := s1.(value := Complete(s1.value, urb, [], 0).value);
    FlushStep(s2);
    var s' := Responded(s, urb, response);
    if Complete(s1.value, urb, [], 0).ok {
      StageKeeps(Flushed(s2), s');
    } else {
      StageKeeps(s2, s');
    }
  }

  // The steps of the DAP worker that complete nothing.
  lemma Worker1Looks(s: Sys, response: Option<seq<Byte>>)
    requires Inv(s) && !s.worker1.Asking? && (s.worker1.Busy? ==> 1 <= s.worker1.urb.size <= MAX_REQUEST)
    ensures Inv(Worker1(s, response))
  {
    hide Inv;
    InvWorkers(s);
    WorkerMoves(s.born, s.queue1, s.worker1, 1);
    hide WorkerOk;
    hide Complete;
    hide Responded;
    hide Checked;
    match s.worker1 {
      case Waiting =>
        if s.queue1 != [] {
          StageKeeps(s, s.(queue1 := s.queue1[1..], worker1 := Taken(s.queue1[0])));
        }
      case Taken(urb) =>
        CheckedKeeps(s, urb);
        StageKeeps(s, Checked(s, urb).0.(worker1 := Checked(s, urb).1));
      case Busy(urb) =>
        if |s.value.responses| < MAX_RESPONSES {
          StageKeeps(s, s.(worker1 := Spaced(urb)));
        }
      case Spaced(urb) =>
        StageKeeps(s, s.(worker1 := Asking(urb)));
        StageKeeps(s, s.(worker1 := Waiting));
      case _ =>
    }
  }

  // A worker completes its URB without data and waits, or stops.
  lemma Worker1Ends(s: Sys)
    requires Inv(s) && s.worker1.Busy?
    ensures var d := Complete(s.value, s.worker1.urb, [], STALL);
            Inv(s.(value := d.value, worker1 := Ended(d.ok)))
  {
    hide Inv;
    InvWorkers(s);
    WorkerMoves(s.born, s.queue1, s.worker1, 1);
    hide WorkerOk;
    hide Complete;
    var d := Complete(s.value, s.worker1.urb, [], STALL);
    CompleteStep(s, s.worker1.urb, [], STALL);
    InvWorkers(s.(value := d.value));
    StageKeeps(s.(value := d.value), s.(value := d.value, worker1 := Ended(d.ok)));
  }

  lemma Worker3Ends(s: Sys, status: int)
    requires Inv(s) && (s.worker3.Stalling? || s.worker3.Asking?)
    ensures var d := Complete(s.value, s.worker3.urb, [], status);
            Inv(s.(value := d.value, worker3 := Ended(d.ok)))
  {
    hide Inv;
    InvWorkers(s);
    WorkerMoves(s.born, s.queue3, s.worker3, 3);
    hide WorkerOk;
    hide Complete;
    var d := Complete(s.value, s.worker3.urb, [], status);
    CompleteStep(s, s.worker3.urb, [], status);
    InvWorkers(s.(value := d.value));
    StageKeeps(s.(value := d.value), s.(value := d.value, worker3 := Ended(d.ok)));
  }

  lemma Worker1Keeps(s: Sys, response: Option<seq<Byte>>)
    requires Inv(s)
    ensures Inv(Worker1(s, response))
  {
    hide Inv;
    InvWorkers(s);
    WorkerMoves(s.born, s.queue1, s.worker1, 1);
    hide WorkerOk;
    hide Complete;
    hide Responded;
    hide Checked;
    if s.worker1.Asking? {
      if response.Some? && response.value != [] && |response.value| <= MAX_REQUEST {
        RespondedKeeps(s, s.worker1.urb, response.value);
      } else {
        StageKeeps(s, s.(worker1 := Stopped));
      }
    } else if s.worker1.Busy? && !(1 <= s.worker1.urb.size <= MAX_REQUEST) {
      Worker1Ends(s);
    } else {
      Worker1Looks(s, response);
    }
  }

  lemma Worker3Keeps(s: Sys, ok: bool)
    requires Inv(s)
    ensures Inv(Worker3(s, ok))
  {
    hide Inv;
    InvWorkers(s);
    WorkerMoves(s.born, s.queue3, s.worker3, 3);
    hide WorkerOk;
    hide Complete;
    var s' := Worker3(s, ok);
    if s.worker3.Stalling? || s.worker3.Asking? {
      Worker3Ends(s, if s.worker3.Asking? then 0 else STALL);
    } else if s.worker3.Taken? {
      CheckedKeeps(s, s.worker3.urb);
      hide Checked;
      StageKeeps(s, s');
    } else {
      StageKeeps(s, s');
    }
  }

  // ---------------------------------------------------------------- the UART reader

  lemma Delivered(v: Value, n: nat, urb: Urb, data: seq<Byte>)
    requires Valid(v, n) && urb in v.pending && urb.ep == 3 && urb.direction == In && |data| <= urb.size
    ensures var d := Complete(v, urb, data, 0);
            && Valid(d.value, n) && d.value.responses == v.responses
            && (forall u :: u in d.value.pending ==> u in v.pending)
            && Spelled(d.value.sent, 1) == Spelled(v.sent, 1)
            && Spelled(d.value.sent, 3) == Spelled(v.sent, 3) + if d.ok then data else []
  {
    hide Spelled;
    hide Distinct;
    hide Once;
    hide Below;
    hide Fits;
    var i :| 0 <= i < |v.pending| && v.pending[i] == urb;
    assert Present(v.pending, urb.id);
    hide Present;
    CompleteKeeps(v, n, urb, data, 0);
    CompletePending(v, urb, data, 0);
    CompleteFrame(v, urb, data, 0);
    CompleteSpells(v, urb, data, 0, 1);
    CompleteSpells(v, urb, data, 0, 3);
    RefusedSendsNothing(v, urb, data, 0);
    hide Valid;
    hide Complete;
    assert Spelled(v.sent, 1) + [] == Spelled(v.sent, 1);
    assert Spelled(v.sent, 3) + [] == Spelled(v.sent, 3);
  }

  lemma Regroup(front: seq<Byte>, buffered: seq<Byte>, size: nat)
    requires size <= |buffered|
    ensures (front + buffered[..size]) + buffered[size..] == front + buffered
  {
    assert buffered[..size] + buffered[size..] == buffered;
  }

  // Delivering on EP3 moves a prefix of the buffered bytes to the peer.
  lemma DeliverKeeps(s: Sys, urb: Urb)
    requires Inv(s) && urb in s.value.pending && urb.ep == 3 && urb.direction == In
    ensures var size := Min(urb.size, |s.buffered|);
            var d := Complete(s.value, urb, s.buffered[..size], 0);
            Inv(s.(value := d.value, buffered := if d.ok then s.buffered[size..] else s.buffered))
  {
    hide Spelled;
    hide Flat;
    hide WorkerOk;
    hide Valid;
    hide Complete;
    var size := Min(urb.size, |s.buffered|);
    Delivered(s.value, |s.born|, urb, s.buffered[..size]);
    Regroup(Spelled(s.value.sent, 3), s.buffered, size);
    assert Spelled(s.value.sent, 3) + [] == Spelled(s.value.sent, 3);
  }

  lemma ReadKeeps(s: Sys, answer: Option<seq<Byte>>)
    requires Inv(s) && (s.reader.Fetching? ==> s.buffered == [])
    ensures Inv(ReadOn(s, answer)) && (ReadOn(s, answer).reader.Fetching? ==> ReadOn(s, answer).buffered == [])
  {
    hide WorkerOk;
    hide Valid;
    hide BornOk;
    hide Complete;
    hide Spelled;
    hide Flat;
    var found := FirstInput(s.value.pending, 3);
    if s.reader.Delivering? && found.Some? && s.buffered != [] {
      DeliverKeeps(s, found.value);
    }
  }

  // ---------------------------------------------------------------- whole runs

  predicate FullInv(s: Sys) {
    Inv(s) && (s.reader.Fetching? ==> s.buffered == [])
  }

  predicate SameReader(s: Sys, s': Sys) { s'.reader == s.reader && s'.buffered == s.buffered }

  lemma ReceiverLeavesReader(s: Sys, urb: Urb, queued: bool, seqnum: nat, target: nat)
    ensures SameReader(s, Placed(s, urb, queued)) && SameReader(s, Unlinked(s, seqnum, target))
  {
    hide Complete;
    hide Flush;
    hide FlushResponses;
    hide Cancel;
  }

  lemma Worker0LeavesReader(s: Sys, choice: Control)
    ensures SameReader(s, Worker0(s, choice))
  {
    hide Complete;
    hide Flush;
    hide FlushResponses;
    hide Prefix;
    hide Present;
  }

  lemma Worker3LeavesReader(s: Sys, ok: bool)
    ensures SameReader(s, Worker3(s, ok))
  {
    hide Complete;
    hide Flush;
    hide FlushResponses;
    hide Present;
  }

  lemma Worker1LeavesReader(s: Sys, response: Option<seq<Byte>>)
    ensures SameReader(s, Worker1(s, response))
  {
    hide Complete;
    hide Flush;
    hide FlushResponses;
    hide Present;
  }

  lemma ReaderUntouched(s: Sys, a: Action)
    requires !a.Read?
    ensures SameReader(s, Step(s, a))
  {
    hide Placed;
    hide Unlinked;
    hide Worker0;
    hide Worker1;
    hide Worker3;
    var s1 := s.(value := s.value.(room := a.room));
    match a {
      case Submit(_, seqnum, direction, ep, size, queued) =>
        var urb := Urb(|s.born|, seqnum, direction, ep, size);
        ReceiverLeavesReader(s1.(value := s1.value.(pending := s1.value.pending + [urb]), born := s1.born + [urb]),
                             urb, queued, 0, 0);
      case Unlink(_, seqnum, target) => ReceiverLeavesReader(s1, Urb(0, 0, In, 0, 0), false, seqnum, target);
      case Work0(_, choice) => Worker0LeavesReader(s1, choice);
      case Work1(_, response) => Worker1LeavesReader(s1, response);
      case Work3(_, ok) => Worker3LeavesReader(s1, ok);
      case _ =>
    }
  }

  lemma StepKeepsInv(s: Sys, a: Action)
    requires FullInv(s)
    ensures FullInv(Step(s, a))
  {
    RoomKeeps(s, a.room);
    var s1 := s.(value := s.value.(room := a.room));
    if !a.Read? {
      ReaderUntouched(s, a);
    }
    hide Inv;
    match a {
      case Submit(_, seqnum, direction, ep, size, queued) =>
        if s.receiving {
          SubmittedKeeps(s1, seqnum, direction, ep, size, queued);
        }
      case Unlink(_, seqnum, target) =>
        if s.receiving {
          UnlinkedKeeps(s1, seqnum, target);
        }
      case Work0(_, choice) => Worker0Keeps(s1, choice);
      case Work1(_, response) => Worker1Keeps(s1, response);
      case Work3(_, ok) => Worker3Keeps(s1, ok);
      case Read(_, answer) => ReadKeeps(s1, answer);
    }
  }

  lemma {:induction false} ExecKeepsInv(s: Sys, run: seq<Action>)
    requires FullInv(s)
    ensures FullInv(Exec(s, run))
    decreases run
  {
    if run != [] {
      hide Step;
      hide FullInv;
      StepKeepsInv(s, run[0]);
      ExecKeepsInv(Step(s, run[0]), run[1..]);
    }
  }

  lemma InitInv()
    ensures FullInv(Init)
  {
  }

  lemma SpellsExactly(s: Sys)
    requires SpellsOk(s)
    ensures s.intact <==> Spelled(s.value.sent, 1) + Flat(s.value.responses) == Flat(s.dap)
    ensures Spelled(s.value.sent, 3) + s.buffered == s.uart
  {
    hide Spelled;
    hide Flat;
    assert |Spelled(s.value.sent, 1) + Flat(s.value.responses)| ==
        |Spelled(s.value.sent, 1)| + |Flat(s.value.responses)|;
  }

  /**
   For every interleaving of receiver, workers and UART reader: no URB gets two terminal replies,
   whether RET_SUBMIT or a cancelling RET_UNLINK; one still pending has had none; pending sequence
   numbers are distinct and at most 128; and at most 4 responses are queued.
   */
  lemma OneReplyPerUrb(run: seq<Action>)
    ensures var v := Exec(Init, run).value;
            && (forall i, j :: 0 <= i < j < |v.sent| && Answers(v.sent[i]).Some? && Answers(v.sent[j]).Some? ==>
                  Answers(v.sent[i]).value.id != Answers(v.sent[j]).value.id)
            && (forall i, k :: 0 <= i < |v.sent| && 0 <= k < |v.pending| && Answers(v.sent[i]).Some? ==>
                  Answers(v.sent[i]).value.id != v.pending[k].id)
            && |v.pending| <= MAX_PENDING
            && (forall i, j :: 0 <= i < j < |v.pending| ==> v.pending[i].seqnum != v.pending[j].seqnum)
            && |v.responses| <= MAX_RESPONSES
            && (forall i :: 0 <= i < |v.sent| && v.sent[i].RetSubmit? ==> |v.sent[i].data| <= v.sent[i].urb.size)
  {
    InitInv();
    hide Exec;
    ExecKeepsInv(Init, run);
    hide BornOk;
    hide WorkerOk;
    hide SpellsOk;
  }

  // ---------------------------------------------------------------- room in the channel

  // Room for everything a flush of the responses wants to send.
  predicate RoomToFlush(pending: seq<Urb>, responses: seq<seq<Byte>>, room: nat) { Turns(pending, responses) <= room }

  // The peer asks for input that the responses may be waiting for.
  predicate AsksInput(s: Sys, seqnum: nat, direction: Direction, ep: nat, size: nat) {
    && s.receiving && |s.value.pending| < MAX_PENDING && WithSeq(s.value.pending, seqnum).None?
    && 1 <= ep <= 3 && direction == In && size > 0
  }

  // The DAP worker takes a usable answer, which completes its request before the flush.
  predicate TakesAnswer(s: Sys, response: Option<seq<Byte>>) {
    s.worker1.Asking? && response.Some? && response.value != [] && |response.value| <= MAX_REQUEST
  }

  predicate RoomAfterAnswer(v: Value, urb: Urb, response: seq<Byte>, room: nat) {
    var responses := v.responses + [response];
    if Present(v.pending, urb.id)
    then room == 0 || RoomToFlush(Without(v.pending, urb.id), responses, room - 1)
    else RoomToFlush(v.pending, responses, room)
  }

  // If the step flushes, the channel has room for what is waiting to be delivered.
  predicate RoomFor(s: Sys, a: Action) {
    match a
    case Submit(room, seqnum, direction, ep, size, _) =>
      AsksInput(s, seqnum, direction, ep, size) ==>
        RoomToFlush(s.value.pending + [Urb(|s.born|, seqnum, direction, ep, size)], s.value.responses, room)
    case Work0(room, choice) =>
      s.worker0.Busy? && choice.SetLine? ==> RoomToFlush(s.value.pending, s.value.responses, room)
    case Work1(room, response) =>
      TakesAnswer(s, response) ==> RoomAfterAnswer(s.value, s.worker1.urb, response.value, room)
    case _ => true
  }

  predicate RoomAlong(s: Sys, run: seq<Action>)
    decreases run
  {
    run == [] || (RoomFor(s, run[0]) && RoomAlong(Step(s, run[0]), run[1..]))
  }

  lemma FlushedIntact(s: Sys)
    ensures Flushed(s).intact <==> s.intact && RoomToFlush(s.value.pending, s.value.responses, s.value.room)
  {
    FlushNeedsRoom(s.value);
    hide FlushResponses;
    hide Flush;
  }

  lemma SubmitIntact(s: Sys, seqnum: nat, direction: Direction, ep: nat, size: nat, queued: bool)
    requires s.receiving
    ensures Submitted(s, seqnum, direction, ep, size, queued).intact <==>
            s.intact && RoomFor(s, Submit(s.value.room, seqnum, direction, ep, size, queued))
  {
    var urb := Urb(|s.born|, seqnum, direction, ep, size);
    FlushedIntact(s.(value := s.value.(pending := s.value.pending + [urb]), born := s.born + [urb]));
    hide Flushed;
    hide Flush;
    hide FlushResponses;
    hide Complete;
    hide RoomToFlush;
  }

  lemma Work0Intact(s: Sys, choice: Control)
    ensures Worker0(s, choice).intact <==> s.intact && RoomFor(s, Work0(s.value.room, choice))
  {
    if s.worker0.Busy? && choice.SetLine? {
      FlushedIntact(s.(line := choice.on, value := s.value.(notification := LINE_NOTIFICATION)));
    }
    hide Flushed;
    hide Flush;
    hide FlushResponses;
    hide Complete;
    hide RoomToFlush;
    hide Present;
    hide Prefix;
  }

  lemma RespondedIntact(s: Sys, urb: Urb, response: seq<Byte>)
    ensures Responded(s, urb, response).intact <==>
            s.intact && RoomAfterAnswer(s.value, urb, response, s.value.room)
  {
    var s1 := s.(value := s.value.(responses := s.value.responses + [response]), dap := s.dap + [response]);
    FlushedIntact(s1.(value := Complete(s1.value, urb, [], 0).value));
    hide Flushed;
    hide Flush;
    hide FlushResponses;
    hide RoomToFlush;
    hide Present;
    hide Without;
  }

  lemma Work1Intact(s: Sys, response: Option<seq<Byte>>)
    ensures Worker1(s, response).intact <==> s.intact && RoomFor(s, Work1(s.value.room, response))
  {
    if TakesAnswer(s, response) {
      RespondedIntact(s, s.worker1.urb, response.value);
    }
    hide Responded;
    hide RoomAfterAnswer;
    hide Complete;
    hide Present;
  }

  // The remaining steps flush nothing.
  lemma OthersIntact(s: Sys, seqnum: nat, target: nat, ok: bool, answer: Option<seq<Byte>>)
    ensures Unlinked(s, seqnum, target).intact == s.intact && Worker3(s, ok).intact == s.intact
    ensures ReadOn(s, answer).intact == s.intact
  {
    hide Complete;
    hide Cancel;
    hide Present;
  }

  lemma StepIntact(s: Sys, a: Action)
    ensures Step(s, a).intact <==> s.intact && RoomFor(s, a)
  {
    var s1 := s.(value := s.value.(room := a.room));
    hide Submitted;
    hide Unlinked;
    hide Worker0;
    hide Worker1;
    hide Worker3;
    hide ReadOn;
    hide RoomToFlush;
    hide RoomAfterAnswer;
    RoomSeesRoom(s, a);
    match a {
      case Submit(_, seqnum, direction, ep, size, queued) =>
        if s.receiving {
          SubmitIntact(s1, seqnum, direction, ep, size, queued);
        }
      case Unlink(_, seqnum, target) => OthersIntact(s1, seqnum, target, false, None);
      case Work0(_, choice) => Work0Intact(s1, choice);
      case Work1(_, response) => Work1Intact(s1, response);
      case Work3(_, ok) => OthersIntact(s1, 0, 0, ok, None);
      case Read(_, answer) => OthersIntact(s1, 0, 0, false, answer);
    }
  }

  // The room is the action's, whatever was left before.
  lemma RoomSeesRoom(s: Sys, a: Action)
    ensures RoomFor(s.(value := s.value.(room := a.room)), a) <==> RoomFor(s, a)
  {
    hide RoomToFlush;
    hide Present;
    hide Without;
  }

  lemma {:induction false} ExecIntact(s: Sys, run: seq<Action>)
    ensures Exec(s, run).intact <==> s.intact && RoomAlong(s, run)
    decreases run
  {
    if run != [] {
      hide Step;
      hide RoomFor;
      StepIntact(s, run[0]);
      ExecIntact(Step(s, run[0]), run[1..]);
    }
  }

  /**
   The EP1 inputs followed by the queued fragments spell the DAP responses in order exactly when every
   flush of the run found room in the channel for one packet per input that the waiting responses could
   be delivered to, which is decided by the pending URBs, the responses and the room before it; one flush
   without that room and bytes are gone for good. The EP3 inputs followed by the buffered bytes always
   spell what the UART gave.
   */
  lemma InputsSpellResponses(run: seq<Action>)
    ensures var s := Exec(Init, run);
            && (RoomAlong(Init, run) <==> Spelled(s.value.sent, 1) + Flat(s.value.responses) == Flat(s.dap))
            && Spelled(s.value.sent, 3) + s.buffered == s.uart
  {
    InitInv();
    ExecIntact(Init, run);
    hide Exec;
    ExecKeepsInv(Init, run);
    hide SpellsOk;
    SpellsExactly(Exec(Init, run));
    hide *;
  }

  // A DAP request and an input are pending, and the request has been sent on.
  function AskingState(): Sys {
    var request, input := Urb(0, 1, Out, 1, 1), Urb(1, 2, In, 1, 8);
    Init.(value := Value([request, input], [], [], 9, []), active := {0}, worker1 := Asking(request),
          born := [request, input])
  }

  function AskingRun(): seq<Action> {
    [Submit(9, 1, Out, 1, 1, true), Submit(9, 2, In, 1, 8, true),
     Work1(9, None), Work1(9, None), Work1(9, None), Work1(9, None)]
  }

  lemma AskingReached()
    ensures Exec(Init, AskingRun()) == AskingState()
  {
    var request, input := Urb(0, 1, Out, 1, 1), Urb(1, 2, In, 1, 8);
    var r := AskingRun();
    var s1 := Init.(value := Value([request], [], [], 9, []), born := [request], queue1 := [request]);
    assert Step(Init, r[0]) == s1;
    var s2 := s1.(value := Value([request, input], [], [], 9, []), born := [request, input]);
    SecondSubmit(s1, request, input);
    assert Step(s1, r[1]) == s2;
    var s3 := s2.(queue1 := [], worker1 := Taken(request));
    var s4 := s3.(active := {0}, worker1 := Busy(request));
    var s5 := s4.(worker1 := Spaced(request));
    FourLooks(s2, s3, s4, s5, request);
    hide Step;
    assert r[1..][1..][1..][1..][1..][1..] == [];
    assert Exec(s5, r[1..][1..][1..][1..][1..]) == AskingState();
    assert Exec(s4, r[1..][1..][1..][1..]) == AskingState();
    assert Exec(s3, r[1..][1..][1..]) == AskingState();
    assert Exec(s2, r[1..][1..]) == AskingState();
    assert Exec(s1, r[1..]) == AskingState();
  }

  // The DAP worker takes the request, finds it pending, finds room, and asks.
  lemma FourLooks(s2: Sys, s3: Sys, s4: Sys, s5: Sys, request: Urb)
    requires s2.worker1 == Waiting && s2.queue1 == [request] && request.id == 0 && request.size == 1
    requires s2.value.room == 9 && s2.value.responses == [] && |s2.value.pending| > 0 && s2.value.pending[0].id == 0
    requires s2.active == {}
    requires s3 == s2.(queue1 := [], worker1 := Taken(request)) && s4 == s3.(active := {0}, worker1 := Busy(request))
    requires s5 == s4.(worker1 := Spaced(request))
    ensures var look := Work1(9, None);
            && Step(s2, look) == s3 && Step(s3, look) == s4 && Step(s4, look) == s5
            && Step(s5, look) == s4.(worker1 := Asking(request))
  {
  }

  lemma SecondSubmit(s: Sys, request: Urb, input: Urb)
    requires s.value == Value([request], [], [], 9, []) && s.born == [request] && s.receiving && s.intact
    requires request == Urb(0, 1, Out, 1, 1) && input == Urb(1, 2, In, 1, 8)
    ensures Step(s, Submit(9, 2, In, 1, 8, true)) ==
            s.(value := Value([request, input], [], [], 9, []), born := [request, input])
  {
    assert [request][1..] == [];
    assert WithSeq([request], 2).None?;
    var v := s.value.(pending := [request] + [input]);
    assert [request] + [input] == [request, input];
    assert Flush(v) == Outcome(v, true);
  }

  /** A response whose input reply meets a full channel is lost: the exception in `InputsSpellResponses` is real. */
  lemma RefusedFlushLoses()
    ensures !RoomAlong(Init, AskingRun() + [Work1(1, Some([7]))])
    ensures var s := Exec(Init, AskingRun() + [Work1(1, Some([7]))]);
            s.dap == [[7]] && s.value.responses == [] && Spelled(s.value.sent, 1) == []
  {
    hide Exec;
    hide AskingRun;
    var last := Work1(1, Some([7]));
    AskingReached();
    ExecAppends(Init, AskingRun(), last);
    ExecIntact(Init, AskingRun() + [last]);
    hide RoomAlong;
    AnswerLost();
  }

  lemma AnswerLost()
    ensures var s := Step(AskingState(), Work1(1, Some([7])));
            !s.intact && s.dap == [[7]] && s.value.responses == [] && Spelled(s.value.sent, 1) == []
  {
    var s := AskingState();
    var request, input := s.born[0], s.born[1];
    var v1 := s.value.(room := 1, responses := [[7]]);
    var reply := Reply(request, [], 0);
    var v2 := v1.(pending := [input], room := 0, sent := [reply]);
    RequestCompletes(v1, request, input);
    FullChannelLoses(v2, input);
    hide Complete;
    hide FlushResponses;
    assert [] + [[7]] == [[7]];
    SpelledAppends([], reply, 1);
    assert [] + [reply] == [reply];
  }

  lemma RequestCompletes(v: Value, request: Urb, input: Urb)
    requires v.pending == [request, input] && v.room == 1 && request.id != input.id && v.sent == []
    ensures Complete(v, request, [], 0) ==
            Outcome(v.(pending := [input], room := 0, sent := [Reply(request, [], 0)]), true)
  {
    assert v.pending[0].id == request.id;
    assert Without(v.pending, request.id) == [input];
  }

  lemma FullChannelLoses(v: Value, input: Urb)
    requires v.pending == [input] && v.responses == [[7]] && v.room == 0 && input.ep == 1 && input.direction == In
    ensures FlushResponses(v) == Outcome(v.(pending := [], responses := []), false)
  {
    assert FirstInput([input], 1) == Some(input);
    assert v.pending[0].id == input.id;
    assert Without([input], input.id) == [];
    assert [[7]][1..] == [];
  }

  lemma {:induction false} ExecAppends(s: Sys, run: seq<Action>, last: Action)
    ensures Exec(s, run + [last]) == Step(Exec(s, run), last)
    decreases run
  {
    hide Step;
    if run == [] {
      assert run + [last] == [last] && [last][1..] == [];
      assert Exec(Step(s, last), []) == Step(s, last);
    } else {
      assert (run + [last])[1..] == run[1..] + [last];
      ExecAppends(Step(s, run[0]), run[1..], last);
    }
  }
}
