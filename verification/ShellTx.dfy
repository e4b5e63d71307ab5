/**
 Transmit accounting of the debug shell, `firmware/components/usb_device/debug_shell_tx_state.c`:
 bytes are reserved before they are written, committed after, and reported complete by callbacks in
 between. The record and its operations first, then every interleaving of the one writer (who holds
 the output mutex, as connecting does) with completions and disconnects.
 */
module ShellTx {

  const U64 := 0x1_0000_0000_0000_0000

  datatype Tx = Tx(generation: nat, accepted: nat, completed: nat, connected: bool)

  datatype Reservation = Reservation(generation: nat, reserved: nat, valid: bool)

  datatype Ticket = Ticket(generation: nat, target: nat, valid: bool)

  datatype Status = Pending | Complete | Cancelled

  const Initial := Tx(0, 0, 0, false)
  const NoReservation := Reservation(0, 0, false)
  const NoTicket := Ticket(0, 0, false)

  // ---------------------------------------------------------------- the operations as functions

  // The generation counts up and skips 0.
  function NextGeneration(g: nat): nat { if (g + 1) % U64 == 0 then 1 else (g + 1) % U64 }

  function Connect(s: Tx): Tx { if s.connected then s else Tx(NextGeneration(s.generation), 0, 0, true) }

  function Disconnect(s: Tx): Tx {
    if !s.connected then s else s.(connected := false, generation := NextGeneration(s.generation))
  }

  function Reserve(s: Tx, n: nat): (Tx, Reservation) {
    if !s.connected || n == 0 then (s, NoReservation)
    else (s.(accepted := (s.accepted + n) % U64), Reservation(s.generation, n, true))
  }

  function Commit(s: Tx, r: Reservation, accepted: nat): (Tx, Ticket) {
    if !s.connected || !r.valid || r.generation != s.generation || accepted > r.reserved || s.accepted < r.reserved
    then (s, NoTicket)
    else
      var total := s.accepted - (r.reserved - accepted);
      (s.(accepted := total), Ticket(r.generation, total, true))
  }

  function Report(s: Tx, n: nat): Tx {
    if !s.connected || n == 0 then s
    else
      var outstanding := if s.accepted > s.completed then s.accepted - s.completed else 0;
      s.(completed := s.completed + (if n < outstanding then n else outstanding))
  }

  function StatusOf(s: Tx, t: Ticket): Status {
    if !t.valid || !s.connected || t.generation != s.generation then Cancelled
    else if s.completed >= t.target then Complete
    else Pending
  }

  /** A commit gets its ticket exactly when it is for no more than was reserved and the reservation did not wrap. */
  lemma CommitExactly(s: Tx, n: nat, k: nat)
    requires s.connected && s.accepted < U64 && 0 < n < U64
    ensures var (reserved, r) := Reserve(s, n);
            var (committed, ticket) := Commit(reserved, r, k);
            && (ticket.valid <==> k <= n && s.accepted + n < U64)
            && (ticket.valid ==> committed == s.(accepted := s.accepted + k) && ticket.target == s.accepted + k)
            && (!ticket.valid ==> committed == reserved && ticket == NoTicket)
  {
    if s.accepted + n < U64 {
      assert (s.accepted + n) % U64 == s.accepted + n;
    } else {
      assert (s.accepted + n) % U64 == s.accepted + n - U64;
    }
  }

  /** Completions add up: two reports count what one report of both would. */
  lemma ReportsAdd(s: Tx, m: nat, n: nat)
    ensures Report(Report(s, m), n) == Report(s, m + n)
    ensures s.connected && s.completed <= s.accepted ==>
              Report(s, n).completed == if s.completed + n < s.accepted then s.completed + n else s.accepted
  {
  }

  /** Once disconnected, and still after connecting again, old tickets are cancelled and old reservations are void. */
  lemma ReconnectCancels(s: Tx, t: Ticket, r: Reservation, k: nat)
    requires s.connected && t.generation == r.generation == s.generation
    ensures var down := Disconnect(s);
            && StatusOf(down, t) == StatusOf(Connect(down), t) == Cancelled
            && Commit(down, r, k) == (down, NoTicket) && Commit(Connect(down), r, k) == (Connect(down), NoTicket)
  {
    NextTwice(s.generation);
  }

  lemma NextTwice(g: nat)
    ensures NextGeneration(NextGeneration(g)) != g
  {
    if g < U64 - 2 {
      assert (g + 1) % U64 == g + 1 && (g + 2) % U64 == g + 2;
    } else if g == U64 - 2 {
      assert (g + 1) % U64 == U64 - 1;
    } else if g == U64 - 1 {
      assert (g + 1) % U64 == 0;
    }
  }

  // ---------------------------------------------------------------- the record

  class TxState {
    var generation: nat
    var accepted: nat
    var completed: nat
    var connected: bool

    constructor ()
      ensures View() == Initial
    {
      generation, accepted, completed, connected := 0, 0, 0, false;
    }

    function View(): Tx
      reads this
    {
      Tx(generation, accepted, completed, connected)
    }

    method Bump()
      modifies this`generation
      ensures generation == NextGeneration(old(generation))
    {
      generation := (generation + 1) % U64;
      if generation == 0 {
        generation := generation + 1;
      }
    }

    method Connected()
      modifies this
      ensures View() == Connect(old(View()))
    {
      if connected {
        return;
      }
      Bump();
      accepted, completed, connected := 0, 0, true;
    }

    method Disconnected()
      modifies this
      ensures View() == Disconnect(old(View()))
      ensures forall t: Ticket :: old(connected) && t.generation == old(generation) ==>
                StatusOf(View(), t) == Cancelled && StatusOf(Connect(View()), t) == Cancelled
    {
      NextTwice(generation);
      if !connected {
        return;
      }
      connected := false;
      Bump();
    }

    method ReserveBytes(requested: nat) returns (r: Reservation)
      modifies this
      ensures (View(), r) == Reserve(old(View()), requested)
    {
      if !connected || requested == 0 {
        return NoReservation;
      }
      accepted := (accepted + requested) % U64;
      r := Reservation(generation, requested, true);
    }

    method CommitBytes(r: Reservation, written: nat) returns (ticket: Ticket)
      modifies this
      ensures (View(), ticket) == Commit(old(View()), r, written)
    {
      if !connected || !r.valid || r.generation != generation || written > r.reserved || accepted < r.reserved {
        return NoTicket;
      }
      accepted := accepted - (r.reserved - written);
      ticket := Ticket(r.generation, accepted, true);
    }

    method CompletedBytes(n: nat)
      modifies this
      ensures View() == Report(old(View()), n)
    {
      if connected && n > 0 {
        var outstanding := if accepted > completed then accepted - completed else 0;
        completed := completed + (if n < outstanding then n else outstanding);
      }
    }
  }

  // ---------------------------------------------------------------- the writer and the driver

  datatype Writer = Idle | Writing(reservation: Reservation, took: nat)

  /** A ticket, the connection it was issued on, and the bytes committed on it up to then. */
  datatype Issued = Issued(ticket: Ticket, epoch: nat, mark: nat)

  /**
   History: `epoch` counts generations; `taken`, `reported` and `committed` are the bytes the driver
   took, reported, and had committed on this connection.
   */
  datatype Sys = Sys(tx: Tx, writer: Writer, epoch: nat, taken: nat, reported: nat, committed: nat,
                     tickets: seq<Issued>)

  const Init := Sys(Initial, Idle, 0, 0, 0, 0, [])

  datatype Action = Up | Down | Begin(n: nat) | Take(n: nat) | Done(n: nat) | End

  function Step(s: Sys, a: Action): Sys {
    match a
    // connecting waits for the output mutex
    case Up =>
      if s.tx.connected || !s.writer.Idle? then s
      else s.(tx := Connect(s.tx), epoch := s.epoch + 1, taken := 0, reported := 0, committed := 0)
    case Down => if !s.tx.connected then s else s.(tx := Disconnect(s.tx), epoch := s.epoch + 1)
    case Begin(n) =>
      if !s.writer.Idle? then s
      else
        var (tx, r) := Reserve(s.tx, n);
        if r.valid then s.(tx := tx, writer := Writing(r, 0)) else s.(tx := tx)
    // the driver takes more of the bytes being written
    case Take(n) =>
      if !s.writer.Writing? || s.writer.took + n > s.writer.reservation.reserved then s
      else s.(writer := s.writer.(took := s.writer.took + n), taken := if s.tx.connected then s.taken + n else s.taken)
    // and reports only bytes it took on this connection
    case Done(n) =>
      if s.tx.connected && s.reported + n > s.taken then s
      else s.(tx := Report(s.tx, n), reported := if s.tx.connected then s.reported + n else s.reported)
    case End =>
      if !s.writer.Writing? then s
      else
        var (tx, ticket) := Commit(s.tx, s.writer.reservation, s.writer.took);
        if !ticket.valid then s.(tx := tx, writer := Idle)
        else
          s.(tx := tx, writer := Idle, committed := s.committed + s.writer.took,
             tickets := s.tickets + [Issued(ticket, s.epoch, s.committed + s.writer.took)])
  }

  function Exec(s: Sys, run: seq<Action>): Sys
    decreases run
  {
    if run == [] then s else Exec(Step(s, run[0]), run[1..])
  }

  // Fewer than 2^64 bytes on a connection.
  predicate Fits(s: Sys, a: Action) {
    a.Begin? && s.tx.connected ==> s.tx.accepted + a.n < U64
  }

  predicate FittingRun(s: Sys, run: seq<Action>)
    decreases run
  {
    run == [] || (Fits(s, run[0]) && FittingRun(Step(s, run[0]), run[1..]))
  }

  // ---------------------------------------------------------------- the invariant

  // The generation after `k` changes.
  function Gen(k: nat): nat { if k == 0 then 0 else (k - 1) % (U64 - 1) + 1 }

  lemma Remainder(n: nat, q: nat, r: nat)
    requires n == (U64 - 1) * q + r && r < U64 - 1
    ensures n % (U64 - 1) == r
  {
  }

  lemma NextGen(k: nat)
    ensures Gen(k + 1) == NextGeneration(Gen(k)) && Gen(k) < U64
  {
    if k > 0 {
      var q, r := (k - 1) / (U64 - 1), (k - 1) % (U64 - 1);
      if r + 1 < U64 - 1 {
        Remainder(k, q, r + 1);
      } else {
        Remainder(k, q + 1, 0);
      }
    }
  }

  lemma SameGen(a: nat, b: nat)
    requires 0 < a <= b && Gen(a) == Gen(b)
    ensures (b - a) % (U64 - 1) == 0
  {
    var p, q, r := (a - 1) / (U64 - 1), (b - 1) / (U64 - 1), (a - 1) % (U64 - 1);
    assert a - 1 == (U64 - 1) * p + r && b - 1 == (U64 - 1) * q + r;
    Remainder(b - a, q - p, 0);
  }

  lemma WholeRounds(a: nat, b: nat)
    requires 0 < a <= b && (b - a) % (U64 - 1) == 0
    ensures Gen(a) == Gen(b)
  {
    var p, k, r := (a - 1) / (U64 - 1), (b - a) / (U64 - 1), (a - 1) % (U64 - 1);
    Remainder(b - 1, p + k, r);
  }

  /** A generation is back exactly after whole rounds of 2^64 - 1 changes. */
  lemma GensAgree(a: nat, b: nat)
    requires 0 < a <= b
    ensures Gen(a) == Gen(b) <==> (b - a) % (U64 - 1) == 0
  {
    hide Gen;
    if Gen(a) == Gen(b) {
      SameGen(a, b);
    }
    if (b - a) % (U64 - 1) == 0 {
      WholeRounds(a, b);
    }
  }

  predicate TicketOk(s: Sys, i: Issued) {
    && i.ticket.valid && i.ticket.target == i.mark
    && 0 < i.epoch <= s.epoch && i.ticket.generation == Gen(i.epoch)
    && (i.epoch == s.epoch && s.tx.connected ==> i.mark <= s.committed)
  }

  predicate Counts(s: Sys) {
    && (s.writer.Writing? ==> s.writer.reservation.valid && s.writer.took <= s.writer.reservation.reserved)
    && (s.tx.connected ==>
          && s.tx.completed == s.reported <= s.taken && s.tx.accepted < U64
          && (if s.writer.Writing? then
                && s.writer.reservation.generation == s.tx.generation
                && s.tx.accepted == s.committed + s.writer.reservation.reserved
                && s.taken == s.committed + s.writer.took
              else s.tx.accepted == s.committed == s.taken))
  }

  predicate Inv(s: Sys) {
    && s.tx.generation == Gen(s.epoch) && (s.tx.connected ==> s.epoch > 0)
    && Counts(s)
    && forall i :: 0 <= i < |s.tickets| ==> TicketOk(s, s.tickets[i])
  }

  lemma StepKeepsCounts(s: Sys, a: Action)
    requires Counts(s) && Fits(s, a)
    ensures Counts(Step(s, a))
  {
    if a.Begin? && s.tx.connected {
      assert (s.tx.accepted + a.n) % U64 == s.tx.accepted + a.n;
    }
  }

  lemma StepKeepsInv(s: Sys, a: Action)
    requires Inv(s) && Fits(s, a)
    ensures Inv(Step(s, a))
  {
    var s' := Step(s, a);
    StepKeepsCounts(s, a);
    NextGen(s.epoch);
    hide Gen;
    forall i | 0 <= i < |s'.tickets|
      ensures TicketOk(s', s'.tickets[i])
    {
      if i < |s.tickets| {
        assert TicketOk(s, s.tickets[i]);
      }
    }
  }

  lemma {:induction false} ExecKeepsInv(s: Sys, run: seq<Action>)
    requires Inv(s) && FittingRun(s, run)
    ensures Inv(Exec(s, run))
    decreases run
  {
    if run != [] {
      hide Step;
      hide Inv;
      StepKeepsInv(s, run[0]);
      ExecKeepsInv(Step(s, run[0]), run[1..]);
    }
  }

  /**
   In every interleaving: no completion is clipped (what is reported is all counted), and whenever no
   write is in progress the completed bytes do not exceed the accepted ones, which are exactly the
   bytes the driver took.
   */
  lemma NothingClipped(run: seq<Action>, n: nat)
    requires FittingRun(Init, run)
    ensures var s := Exec(Init, run);
            && (s.tx.connected && s.reported + n <= s.taken ==> Report(s.tx, n).completed == s.tx.completed + n)
            && (s.tx.connected && s.writer.Idle? ==> s.tx.completed <= s.tx.accepted == s.taken)
            && (s.tx.connected ==> s.tx.completed == s.reported)
  {
    ExecKeepsInv(Init, run);
  }

  /**
   A ticket of this connection reads COMPLETE exactly when every byte committed up to it has been
   reported, PENDING until then; a ticket of an earlier connection reads CANCELLED exactly unless the
   present connection is a whole number of generation rounds later.
   */
  lemma TicketsTellTheTruth(run: seq<Action>, i: nat)
    requires FittingRun(Init, run) && i < |Exec(Init, run).tickets|
    ensures var s := Exec(Init, run);
            var t := s.tickets[i];
            && (s.tx.connected && t.epoch == s.epoch ==>
                  StatusOf(s.tx, t.ticket) == if s.reported >= t.mark then Complete else Pending)
            && t.epoch <= s.epoch
            && (StatusOf(s.tx, t.ticket) == Cancelled <==> !s.tx.connected || (s.epoch - t.epoch) % (U64 - 1) != 0)
  {
    ExecKeepsInv(Init, run);
    var s := Exec(Init, run);
    var t := s.tickets[i];
    assert TicketOk(s, t);
    GensAgree(t.epoch, s.epoch);
    hide Exec;
    hide Gen;
  }

  // ---------------------------------------------------------------- past 2^64 bytes

  // Writes of `n` bytes, each taken, reported and committed.
  function WriteRun(n: nat): seq<Action> { [Begin(n), Take(n), Done(n), End] }

  function WritesRun(n: nat, k: nat): seq<Action> {
    if k == 0 then [] else WritesRun(n, k - 1) + WriteRun(n)
  }

  // A connection on which `c` bytes were written, all reported and committed, by `k` tickets.
  predicate Settled(s: Sys, c: nat, k: nat) {
    && s.tx == Tx(s.tx.generation, c, c, true) && s.writer == Idle
    && s.taken == c && s.reported == c && s.committed == c && |s.tickets| == k
  }

  lemma {:induction false} ExecConcat(s: Sys, first: seq<Action>, second: seq<Action>)
    ensures Exec(s, first + second) == Exec(Exec(s, first), second)
    decreases first
  {
    hide Step;
    if first == [] {
      assert first + second == second;
    } else {
      assert (first + second)[1..] == first[1..] + second;
      ExecConcat(Step(s, first[0]), first[1..], second);
    }
  }

  lemma ExecThree(s: Sys, a: Action, b: Action, c: Action)
    ensures Exec(s, [a, b, c]) == Step(Step(Step(s, a), b), c)
  {
    hide Step;
    assert [a, b, c][1..] == [b, c] && [b, c][1..] == [c] && [c][1..] == [];
    assert Exec(Step(Step(s, a), b), [c]) == Exec(Step(Step(Step(s, a), b), c), []);
  }

  lemma WriteLands(s: Sys, c: nat, k: nat, n: nat)
    requires Settled(s, c, k) && n > 0 && c + n < U64
    ensures Settled(Exec(s, WriteRun(n)), c + n, k + 1)
  {
    assert (c + n) % U64 == c + n;
    var s1 := Step(s, Begin(n));
    var s2 := Step(s1, Take(n));
    var s3 := Step(s2, Done(n));
    var s4 := Step(s3, End);
    assert Settled(s4, c + n, k + 1);
    hide Step;
    ExecThree(s, Begin(n), Take(n), Done(n));
    assert Exec(s3, [End]) == s4 by {
      assert [End][1..] == [];
      assert Exec(s4, []) == s4;
    }
    ExecConcat(s, [Begin(n), Take(n), Done(n)], [End]);
    assert WriteRun(n) == [Begin(n), Take(n), Done(n)] + [End];
  }

  lemma {:induction false} WritesLand(s: Sys, n: nat, k: nat)
    requires Settled(s, 0, 0) && 0 < n && n * k < U64
    ensures Settled(Exec(s, WritesRun(n, k)), n * k, k)
    decreases k
  {
    if k > 0 {
      assert n * k == n * (k - 1) + n;
      hide Step;
      WritesLand(s, n, k - 1);
      ExecConcat(s, WritesRun(n, k - 1), WriteRun(n));
      hide WriteRun;
      WriteLands(Exec(s, WritesRun(n, k - 1)), n * (k - 1), k - 1, n);
    }
  }

  // As many bytes as one write can have on the device, and how many such writes fill the 64-bit count.
  const LARGEST_WRITE := 0xFFFF_FFFF
  const FILLING_WRITES := 0x1_0000_0001

  function FullRun(): seq<Action> { [Up] + WritesRun(LARGEST_WRITE, FILLING_WRITES) }

  lemma FullRunLands()
    ensures Settled(Exec(Init, FullRun()), U64 - 1, FILLING_WRITES)
  {
    var s := Step(Init, Up);
    assert Settled(s, 0, 0);
    hide Step;
    hide WritesRun;
    assert Exec(Init, [Up]) == s by {
      assert [Up][1..] == [];
      assert Exec(s, []) == s;
    }
    ExecConcat(Init, [Up], WritesRun(LARGEST_WRITE, FILLING_WRITES));
    WritesLand(s, LARGEST_WRITE, FILLING_WRITES);
    assert LARGEST_WRITE * FILLING_WRITES == U64 - 1;
  }

  /**
   The byte bound cannot be dropped: after 2^64 - 1 bytes on a connection, a write of two more is taken
   in full by the driver and gets no ticket.
   */
  lemma OverflowLosesTicket()
    ensures var full, s := Exec(Init, FullRun()), Exec(Init, FullRun() + [Begin(2), Take(2), End]);
            && s.tx.connected && s.taken == U64 + 1 && s.writer == Idle && s.tickets == full.tickets
  {
    FullRunLands();
    hide FullRun;
    hide *;
    ExecConcat(Init, FullRun(), [Begin(2), Take(2), End]);
    TwoMore(Exec(Init, FullRun()));
  }

  lemma TwoMore(s: Sys)
    requires Settled(s, U64 - 1, FILLING_WRITES)
    ensures var s' := Exec(s, [Begin(2), Take(2), End]);
            s'.tx.connected && s'.taken == U64 + 1 && s'.writer == Idle && s'.tickets == s.tickets
  {
    assert (U64 - 1 + 2) % U64 == 1;
    var s1 := Step(s, Begin(2));
    var s2 := Step(s1, Take(2));
    assert Step(s2, End).tickets == s.tickets;
    ExecThree(s, Begin(2), Take(2), End);
    hide Exec;
  }
}
