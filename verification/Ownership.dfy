/**
 The debug-bus arbiter of `firmware/components/dap_ownership/dap_ownership.c`.

 One atomic word holds three state bits, an ACTIVE bit and a generation. Any number of
 threads call the functions of the component; the model splits every call at its shared
 accesses (load, compare-and-swap, store) and at the start and end of each backend call,
 and `Step` performs one such piece for one thread. A run is any list of actions, so a
 statement about `Exec` covers every interleaving.
 */
module Ownership {

  // ---------------------------------------------------------------- the control word

  const GENERATION_MAX: nat := 0x0FFF_FFFF

  datatype Owner = Usb | Network | Diagnostic

  datatype State = NoOwner | Owned(owner: Owner) | Transition | Offline | Suspended | Uninitialized

  datatype Control = Control(generation: nat, active: bool, state: State)

  function StateCode(state: State): nat {
    match state
    case NoOwner => 0
    case Owned(Usb) => 1
    case Owned(Network) => 2
    case Owned(Diagnostic) => 3
    case Transition => 4
    case Offline => 5
    case Suspended => 6
    case Uninitialized => 7
  }

  // The stored word: generation above bit 4, ACTIVE in bit 3, the state below.
  function Pack(c: Control): nat {
    c.generation * 16 + (if c.active then 8 else 0) + StateCode(c.state)
  }

  // Comparing packed words compares all three fields, so a compare-and-swap on words is one on records.
  lemma PackFaithful(a: Control, b: Control)
    requires a.generation <= GENERATION_MAX
    ensures Pack(a) < 0x1_0000_0000
    ensures Pack(a) % 8 == StateCode(a.state) && Pack(a) / 16 == a.generation
    ensures Pack(a) / 8 % 2 == 1 <==> a.active
    ensures Pack(a) == Pack(b) <==> a == b
  {
    assert Pack(a) / 8 == 2 * a.generation + (if a.active then 1 else 0);
    if Pack(a) == Pack(b) {
      assert Pack(b) / 16 == b.generation && Pack(b) % 8 == StateCode(b.state);
      assert a.state == b.state;
    }
  }

  // ---------------------------------------------------------------- threads

  datatype Claim = Claim(owner: Owner, generation: nat)

  /** A begun operation. `holder` names the logical thread entitled to end it. */
  datatype Operation = Operation(state: State, generation: nat, holder: nat)

  datatype Result = Ok | AlreadyOwner | Busy | NotOwner | IsOffline | InvalidArgument | InvalidState

  datatype Yielded = Nothing | YieldClaim(claim: Claim) | YieldOperation(operation: Operation)

  datatype Call =
    | Initialize(backendComplete: bool)
    | Acquire(owner: Owner)
    | Release(claim: Claim)
    | OperationBegin(claim: Claim, tokenInUse: bool)
    | ControlBegin(owner: Owner, tokenInUse: bool)
    | OperationEnd(operation: Operation)
    | Revoke
    | RevokeOwner(owner: Owner)
    | Suspend
    | Resume

  /** Where a thread stands between two of its shared accesses. */
  datatype Pc =
    | Ready
    | Returned(result: Result, got: Yielded)
    | InitializeStore
    | AcquireCas(owner: Owner, expected: Control)
    | AcquireExhausted(generation: nat)
    | LineReset(owner: Owner, generation: nat)
    | AcquireStore(owner: Owner, generation: nat)
    | ReleasePins(generation: nat, target: State, onReleased: Result)
    | ReleaseStore(generation: nat, target: State, result: Result)
    | ControlCas(owner: Owner, current: Control)
    | RevokeCas(current: Control)
    | RevokeOwnerCas(owner: Owner, current: Control)
    | SuspendCas(current: Control)
    | ResumeCas(current: Control)

  /** `Advance(ok)`: a backend call ends with `ok`, or a weak compare-and-swap does not fail spuriously. */
  datatype Choice = Start(call: Call) | Advance(ok: bool)

  datatype Action = Action(thread: nat, choice: Choice)

  /** `live` and `granted` are history: the operations begun and not ended, and every claim ever granted. */
  datatype Sys = Sys(word: Control, threads: map<nat, Pc>, live: set<Operation>, granted: seq<Claim>)

  function PcOf(s: Sys, t: nat): Pc {
    if t in s.threads then s.threads[t] else Ready
  }

  predicate Resting(pc: Pc) {
    pc.Ready? || pc.Returned?
  }

  function Goto(s: Sys, t: nat, pc: Pc): Sys {
    s.(threads := s.threads[t := pc])
  }

  function WriteWord(s: Sys, t: nat, w: Control, pc: Pc): Sys {
    s.(word := w, threads := s.threads[t := pc])
  }

  function Done(result: Result): Pc {
    Returned(result, Nothing)
  }

  const Init := Sys(Control(0, false, Uninitialized), map[], {}, [])

  // ---------------------------------------------------------------- the functions

  predicate ValidClaim(c: Claim) {
    0 < c.generation <= GENERATION_MAX
  }

  function ClaimWord(c: Claim): Control {
    Control(c.generation, false, Owned(c.owner))
  }

  function ClaimFailure(w: Control, c: Claim): Result {
    match w.state
    case Offline => IsOffline
    case Uninitialized => InvalidState
    case Suspended => Busy
    case Transition => Busy
    case _ =>
      if w.state == Owned(c.owner) && w.generation == c.generation && w.active then Busy else NotOwner
  }

  // What `acquire` answers for a word it cannot take; a taken word continues to its compare-and-swap.
  function AcquireSeen(owner: Owner, w: Control, mayTake: bool): Pc {
    if w.state == Owned(owner) then Returned(AlreadyOwner, YieldClaim(Claim(owner, w.generation)))
    else if w.state == Offline then Done(IsOffline)
    else if w.state == Uninitialized then Done(InvalidState)
    else if !mayTake || w.state != NoOwner || w.active then Done(Busy)
    else AcquireCas(owner, w)
  }

  function RevokeSeen(w: Control): Pc {
    if w.state == NoOwner && !w.active then Done(Ok)
    else if w.state == Offline then Done(IsOffline)
    else if w.state == Uninitialized then Done(InvalidState)
    else if !w.state.Owned? || w.active then Done(Busy)
    else RevokeCas(w)
  }

  function RevokeLost(w: Control): Pc {
    match w.state
    case NoOwner => Done(Ok)
    case Offline => Done(IsOffline)
    case Uninitialized => Done(InvalidState)
    case _ => Done(Busy)
  }

  function RevokeOwnerSeen(owner: Owner, w: Control): Pc {
    match w.state
    case Offline => Done(IsOffline)
    case Uninitialized => Done(InvalidState)
    case Transition => Done(Busy)
    case Suspended => Done(Busy)
    case _ =>
      if w.state != Owned(owner) then Done(NotOwner)
      else if w.active then Done(Busy)
      else RevokeOwnerCas(owner, w)
  }

  function RevokeOwnerLost(owner: Owner, w: Control): Pc {
    match w.state
    case Offline => Done(IsOffline)
    case Uninitialized => Done(InvalidState)
    case Transition => Done(Busy)
    case Suspended => Done(Busy)
    case _ => if w.state == Owned(owner) then Done(Busy) else Done(NotOwner)
  }

  // One turn of the loop in `suspend`, on the word just observed.
  function SuspendSeen(w: Control): Pc {
    if w.state == Suspended then Done(Ok)
    else if w.state == Offline then Done(IsOffline)
    else if w.state == Uninitialized then Done(InvalidState)
    else if w.state == Transition || w.active then Done(Busy)
    else SuspendCas(w)
  }

  function ResumeSeen(w: Control): Pc {
    match w.state
    case NoOwner => Done(Ok)
    case Offline => Done(IsOffline)
    case Uninitialized => Done(InvalidState)
    case Suspended => ResumeCas(w)
    case _ => Done(Busy)
  }

  function ControlSeen(owner: Owner, w: Control): Pc {
    if w.state == Offline then Done(IsOffline)
    else if w.state == Uninitialized then Done(InvalidState)
    else if (w.state != NoOwner && w.state != Owned(owner)) || w.active then Done(Busy)
    else ControlCas(owner, w)
  }

  // Set ACTIVE on word `w` and hand the operation to thread `t`.
  function Begin(s: Sys, t: nat, w: Control): Sys {
    var op := Operation(w.state, w.generation, t);
    s.(word := w.(active := true), live := s.live + {op}, threads := s.threads[t := Returned(Ok, YieldOperation(op))])
  }

  // Take the word `w` into TRANSITION and start releasing the pins.
  function TakeForRelease(s: Sys, t: nat, w: Control, target: State): Sys {
    WriteWord(s, t, Control(w.generation, false, Transition), ReleasePins(w.generation, target, Ok))
  }

  // The first piece of a call: everything up to and including its first shared access.
  function StartCall(s: Sys, t: nat, call: Call): Sys {
    match call
    case Initialize(complete) =>
      if !complete then Goto(s, t, Done(InvalidArgument))
      else if s.word != Init.word then Goto(s, t, Done(InvalidState))
      else WriteWord(s, t, Control(0, false, Transition), InitializeStore)
    case Acquire(owner) => Goto(s, t, AcquireSeen(owner, s.word, true))
    case Release(c) =>
      if !ValidClaim(c) then Goto(s, t, Done(InvalidArgument))
      else if s.word != ClaimWord(c) then Goto(s, t, Done(ClaimFailure(s.word, c)))
      else TakeForRelease(s, t, s.word, NoOwner)
    case OperationBegin(c, inUse) =>
      if !ValidClaim(c) then Goto(s, t, Done(InvalidArgument))
      else if inUse then Goto(s, t, Done(InvalidState))
      else if s.word != ClaimWord(c) then Goto(s, t, Done(ClaimFailure(s.word, c)))
      else Begin(s, t, s.word)
    case ControlBegin(owner, inUse) =>
      if inUse then Goto(s, t, Done(InvalidState)) else Goto(s, t, ControlSeen(owner, s.word))
    case OperationEnd(op) =>
      // Tokens are used linearly: a thread ends an operation it holds.
      if op !in s.live || op.holder != t then s
      else
        var held := Control(op.generation, true, op.state);
        s.(live := s.live - {op},
           word := if s.word == held then held.(active := false) else s.word,
           threads := s.threads[t := Done(Ok)])
    case Revoke => Goto(s, t, RevokeSeen(s.word))
    case RevokeOwner(owner) => Goto(s, t, RevokeOwnerSeen(owner, s.word))
    case Suspend => Goto(s, t, SuspendSeen(s.word))
    case Resume => Goto(s, t, ResumeSeen(s.word))
  }

  // The next piece of a call already under way.
  function AdvanceCall(s: Sys, t: nat, ok: bool): Sys {
    match PcOf(s, t)
    case Ready => s
    case Returned(_, _) => s
    case InitializeStore => WriteWord(s, t, Control(0, false, NoOwner), Done(Ok))
    case AcquireCas(owner, expected) =>
      if s.word != expected then Goto(s, t, AcquireSeen(owner, s.word, false))
      else
        WriteWord(s, t, Control(expected.generation, false, Transition),
                  if expected.generation == GENERATION_MAX then AcquireExhausted(expected.generation)
                  else LineReset(owner, expected.generation))
    case AcquireExhausted(g) => WriteWord(s, t, Control(g, false, Offline), Done(IsOffline))
    case LineReset(owner, g) =>
      Goto(s, t, if ok then AcquireStore(owner, g) else ReleasePins(g, NoOwner, IsOffline))
    case AcquireStore(owner, g) =>
      var c := Claim(owner, g + 1);
      s.(word := ClaimWord(c), granted := s.granted + [c], threads := s.threads[t := Returned(Ok, YieldClaim(c))])
    case ReleasePins(g, target, onReleased) =>
      Goto(s, t, ReleaseStore(g, if ok then target else Offline, if ok then onReleased else IsOffline))
    case ReleaseStore(g, target, result) => WriteWord(s, t, Control(g, false, target), Done(result))
    case ControlCas(_, current) =>
      if s.word != current then Goto(s, t, Done(Busy)) else Begin(s, t, current)
    case RevokeCas(current) =>
      if s.word != current then Goto(s, t, RevokeLost(s.word)) else TakeForRelease(s, t, current, NoOwner)
    case RevokeOwnerCas(owner, current) =>
      if s.word != current then Goto(s, t, RevokeOwnerLost(owner, s.word))
      else TakeForRelease(s, t, current, NoOwner)
    case SuspendCas(current) =>
      if s.word != current || !ok then Goto(s, t, SuspendSeen(s.word))
      else if current.state == NoOwner then WriteWord(s, t, Control(current.generation, false, Suspended), Done(Ok))
      else TakeForRelease(s, t, current, Suspended)
    case ResumeCas(current) =>
      if s.word != current || !ok then Goto(s, t, ResumeSeen(s.word))
      else WriteWord(s, t, Control(current.generation, false, NoOwner), Done(Ok))
  }

  function Step(s: Sys, a: Action): Sys {
    match a.choice
    case Start(call) => if Resting(PcOf(s, a.thread)) then StartCall(s, a.thread, call) else s
    case Advance(ok) => AdvanceCall(s, a.thread, ok)
  }

  function Exec(s: Sys, run: seq<Action>): Sys
    decreases run
  {
    if run == [] then s else Exec(Step(s, run[0]), run[1..])
  }

  lemma {:induction false} ExecConcat(s: Sys, first: seq<Action>, second: seq<Action>)
    ensures Exec(s, first + second) == Exec(Exec(s, first), second)
    decreases first
  {
    if first == [] {
      assert first + second == second;
    } else {
      assert (first + second)[1..] == first[1..] + second;
      ExecConcat(Step(s, first[0]), first[1..], second);
    }
  }

  // ---------------------------------------------------------------- the invariant

  predicate InBackend(pc: Pc) {
    pc.LineReset? || pc.ReleasePins?
  }

  // The thread has taken the word into TRANSITION and has still to store its successor.
  predicate Holding(pc: Pc) {
    pc.InitializeStore? || pc.AcquireExhausted? || pc.AcquireStore? || pc.ReleaseStore? || InBackend(pc)
  }

  function HeldGeneration(pc: Pc): nat
    requires Holding(pc)
  {
    if pc.InitializeStore? then 0 else pc.generation
  }

  predicate Free(w: Control) {
    !w.active && (w.state == NoOwner || w.state.Owned?)
  }

  predicate PcWellFormed(pc: Pc) {
    match pc
    case AcquireCas(_, w) => Free(w) && w.state == NoOwner
    case LineReset(_, g) => g < GENERATION_MAX
    case AcquireStore(_, g) => g < GENERATION_MAX
    case ReleasePins(_, target, r) => target == NoOwner || (target == Suspended && r == Ok)
    case ReleaseStore(_, target, r) => target in {NoOwner, Suspended, Offline}
    case ControlCas(_, w) => Free(w)
    case RevokeCas(w) => Free(w) && w.state.Owned?
    case RevokeOwnerCas(o, w) => Free(w) && w.state == Owned(o)
    case SuspendCas(w) => Free(w)
    case ResumeCas(w) => w.state == Suspended
    case _ => true
  }

  predicate Increasing(claims: seq<Claim>) {
    forall i, j :: 0 <= i < j < |claims| ==> claims[i].generation < claims[j].generation
  }

  ghost predicate WordInv(s: Sys) {
    && s.word.generation <= GENERATION_MAX
    && (s.word.active ==>
          && (s.word.state == NoOwner || s.word.state.Owned?)
          && exists h: nat :: s.live == {Operation(s.word.state, s.word.generation, h)})
    && (!s.word.active ==> s.live == {})
  }

  predicate GrantInv(s: Sys) {
    && Increasing(s.granted)
    && (forall i :: 0 <= i < |s.granted| ==> 0 < s.granted[i].generation <= s.word.generation)
    && (s.word.state.Owned? ==>
          && s.granted != []
          && s.granted[|s.granted| - 1] == Claim(s.word.state.owner, s.word.generation))
  }

  ghost predicate ThreadInv(s: Sys) {
    && (forall t: nat :: PcWellFormed(PcOf(s, t)))
    && (forall t: nat :: Holding(PcOf(s, t)) ==>
          s.word == Control(HeldGeneration(PcOf(s, t)), false, Transition))
    && (forall t: nat, u: nat :: Holding(PcOf(s, t)) && Holding(PcOf(s, u)) ==> t == u)
    && (s.word.state == Transition ==> exists t: nat :: Holding(PcOf(s, t)))
  }

  ghost predicate Inv(s: Sys) {
    WordInv(s) && GrantInv(s) && ThreadInv(s)
  }

  predicate LocalInv(s: Sys, t: nat) {
    && s.word.generation <= GENERATION_MAX
    && (s.word.active ==> s.word.state == NoOwner || s.word.state.Owned?)
    && PcWellFormed(PcOf(s, t))
    && (Holding(PcOf(s, t)) ==> s.word == Control(HeldGeneration(PcOf(s, t)), false, Transition))
  }

  lemma StepKeepsWordInv(s: Sys, a: Action)
    requires Inv(s)
    ensures WordInv(Step(s, a))
  {
    var s' := Step(s, a);
    assert PcWellFormed(PcOf(s, a.thread));
    if s'.word.active && s'.live != s.live {
      assert s'.live == {Operation(s'.word.state, s'.word.generation, a.thread)};
    }
  }

  // Only the store that completes an acquire changes the owner, and only upwards in generation.
  lemma StepGrants(s: Sys, a: Action)
    requires LocalInv(s, a.thread)
    ensures var s' := Step(s, a);
            || (s'.granted == s.granted && s'.word.generation == s.word.generation &&
                (s'.word.state.Owned? ==> s'.word.state == s.word.state))
            || (PcOf(s, a.thread).AcquireStore? &&
                var c := Claim(PcOf(s, a.thread).owner, s.word.generation + 1);
                s'.granted == s.granted + [c] && s'.word == ClaimWord(c))
  {
  }

  lemma StepKeepsGrantInv(s: Sys, a: Action)
    requires Inv(s)
    ensures GrantInv(Step(s, a))
  {
    assert LocalInv(s, a.thread);
    StepGrants(s, a);
  }

  lemma StepMovesOneThread(s: Sys, a: Action, u: nat)
    requires u != a.thread
    ensures PcOf(Step(s, a), u) == PcOf(s, u)
  {
  }

  // How one step moves its own thread and the TRANSITION state: it keeps, takes or gives up the word.
  predicate Handover(s: Sys, s': Sys, t: nat) {
    var pc, pc' := PcOf(s, t), PcOf(s', t);
    && (Holding(pc') ==> s'.word == Control(HeldGeneration(pc'), false, Transition))
    && (s'.word.state == Transition ==> Holding(pc') || (s.word.state == Transition && !Holding(pc)))
    && (s.word.state == Transition && !Holding(pc) ==> s'.word == s.word && !Holding(pc'))
  }

  lemma StartHandover(s: Sys, t: nat, call: Call)
    requires LocalInv(s, t) && Resting(PcOf(s, t))
    ensures var s' := StartCall(s, t, call); PcWellFormed(PcOf(s', t)) && Handover(s, s', t)
  {
  }

  lemma AdvanceHandover(s: Sys, t: nat, ok: bool)
    requires LocalInv(s, t)
    ensures var s' := AdvanceCall(s, t, ok); PcWellFormed(PcOf(s', t)) && Handover(s, s', t)
  {
  }

  lemma StepKeepsThreadInv(s: Sys, a: Action)
    requires Inv(s)
    ensures ThreadInv(Step(s, a))
  {
    var s' := Step(s, a);
    var t := a.thread;
    assert LocalInv(s, t);
    match a.choice {
      case Start(call) => if Resting(PcOf(s, t)) { StartHandover(s, t, call); }
      case Advance(ok) => AdvanceHandover(s, t, ok);
    }
    assert PcWellFormed(PcOf(s', t)) && Handover(s, s', t);
    forall u: nat | u != t
      ensures PcOf(s', u) == PcOf(s, u)
    {
      StepMovesOneThread(s, a, u);
    }
    HandoverKeepsThreadInv(s, s', t);
  }

  lemma HandoverKeepsThreadInv(s: Sys, s': Sys, t: nat)
    requires ThreadInv(s)
    requires PcWellFormed(PcOf(s', t)) && Handover(s, s', t)
    requires forall u: nat :: u != t ==> PcOf(s', u) == PcOf(s, u)
    ensures ThreadInv(s')
  {
    if s'.word.state == Transition && !Holding(PcOf(s', t)) {
      var h: nat :| Holding(PcOf(s, h));
      assert Holding(PcOf(s', h));
    }
  }

  lemma {:induction false} ExecKeepsInv(s: Sys, run: seq<Action>)
    requires Inv(s)
    ensures Inv(Exec(s, run))
    decreases run
  {
    if run != [] {
      StepKeepsWordInv(s, run[0]);
      StepKeepsGrantInv(s, run[0]);
      StepKeepsThreadInv(s, run[0]);
      ExecKeepsInv(Step(s, run[0]), run[1..]);
    }
  }

  // ---------------------------------------------------------------- mutual exclusion

  /**
   On every interleaving: at most one operation is live, the ACTIVE bit is set exactly while one
   is, and a line reset or pin release in progress excludes live operations and every other
   backend call.
   */
  lemma MutualExclusion(run: seq<Action>)
    ensures var s := Exec(Init, run);
            && |s.live| <= 1
            && (s.word.active <==> s.live != {})
            && forall t: nat :: InBackend(PcOf(s, t)) ==>
                 s.live == {} && forall u: nat :: u != t ==> !InBackend(PcOf(s, u))
  {
    ExecKeepsInv(Init, run);
    var s := Exec(Init, run);
    if s.word.active {
      var h: nat :| s.live == {Operation(s.word.state, s.word.generation, h)};
    }
    forall t: nat, u: nat | InBackend(PcOf(s, t)) && u != t
      ensures !InBackend(PcOf(s, u))
    {
      assert Holding(PcOf(s, t));
      assert Holding(PcOf(s, u)) ==> t == u;
    }
  }

  /** Generations handed out grow strictly over every run and stay within the 28-bit field. */
  lemma GenerationsIncrease(run: seq<Action>)
    ensures var s := Exec(Init, run);
            && Increasing(s.granted)
            && s.word.generation <= GENERATION_MAX
            && forall i :: 0 <= i < |s.granted| ==> s.granted[i].generation <= s.word.generation
  {
    ExecKeepsInv(Init, run);
  }

  // ---------------------------------------------------------------- claims that have ended

  predicate Current(c: Claim, w: Control) {
    w.generation == c.generation && w.state == Owned(c.owner)
  }

  // No later word can carry this claim again.
  predicate Ended(c: Claim, w: Control) {
    w.generation > c.generation || (w.generation == c.generation && !Current(c, w))
  }

  lemma EndedIsStable(s: Sys, a: Action, c: Claim)
    requires Inv(s)
    requires Ended(c, s.word) || Current(c, s.word)
    ensures Ended(c, Step(s, a).word) || (Current(c, s.word) && Current(c, Step(s, a).word))
  {
    assert PcWellFormed(PcOf(s, a.thread));
  }

  lemma {:induction false} EndedForever(s: Sys, run: seq<Action>, c: Claim)
    requires Inv(s) && Ended(c, s.word)
    ensures Ended(c, Exec(s, run).word)
    decreases run
  {
    if run != [] {
      EndedIsStable(s, run[0], c);
      StepKeepsWordInv(s, run[0]);
      StepKeepsGrantInv(s, run[0]);
      StepKeepsThreadInv(s, run[0]);
      EndedForever(Step(s, run[0]), run[1..], c);
    }
  }

  lemma {:induction false} CurrentOrEnded(s: Sys, run: seq<Action>, c: Claim)
    requires Inv(s) && Current(c, s.word)
    ensures Current(c, Exec(s, run).word) || Ended(c, Exec(s, run).word)
    decreases run
  {
    if run != [] {
      EndedIsStable(s, run[0], c);
      StepKeepsWordInv(s, run[0]);
      StepKeepsGrantInv(s, run[0]);
      StepKeepsThreadInv(s, run[0]);
      if Ended(c, Step(s, run[0]).word) {
        EndedForever(Step(s, run[0]), run[1..], c);
      } else {
        CurrentOrEnded(Step(s, run[0]), run[1..], c);
      }
    }
  }

  lemma EndedClaimRefused(s: Sys, c: Claim, t: nat, call: Call)
    requires Ended(c, s.word) && Resting(PcOf(s, t))
    requires call == Release(c) || call == OperationBegin(c, false)
    ensures var s' := Step(s, Action(t, Start(call)));
            && s'.word == s.word && s'.live == s.live
            && PcOf(s', t).Returned? && PcOf(s', t).result != Ok && PcOf(s', t).got == Nothing
  {
  }

  /**
   Once a claim that was current is no longer current (released, revoked or suspended away), then
   in every later state a `release` or `operation_begin` on it by any resting thread leaves the word
   alone and returns an error.
   */
  lemma EndedClaimNeverServes(before: seq<Action>, ending: seq<Action>, after: seq<Action>, c: Claim, t: nat,
                              call: Call)
    requires Current(c, Exec(Init, before).word)
    requires !Current(c, Exec(Init, before + ending).word)
    requires call == Release(c) || call == OperationBegin(c, false)
    ensures var s := Exec(Init, before + ending + after);
            Resting(PcOf(s, t)) ==>
              var s' := Step(s, Action(t, Start(call)));
              && s'.word == s.word && s'.live == s.live
              && PcOf(s', t).Returned? && PcOf(s', t).result != Ok && PcOf(s', t).got == Nothing
  {
    var mid, s := Exec(Init, before + ending), Exec(Init, before + ending + after);
    assert Ended(c, mid.word) && Inv(mid) by {
      ExecKeepsInv(Init, before);
      ExecKeepsInv(Init, before + ending);
      ExecConcat(Init, before, ending);
      CurrentOrEnded(Exec(Init, before), ending, c);
    }
    ExecConcat(Init, before + ending, after);
    EndedForever(mid, after, c);
    if Resting(PcOf(s, t)) {
      EndedClaimRefused(s, c, t, call);
    }
  }

  /** `release`, either `revoke` and `suspend` end the claim at the very step that takes the word. */
  lemma TakingEndsTheClaim(s: Sys, a: Action, c: Claim)
    requires Inv(s) && Current(c, s.word)
    ensures var s' := Step(s, a);
            && (!Current(c, s'.word) ==> PcOf(s', a.thread).ReleasePins? && s'.word.state == Transition)
            && (PcOf(s', a.thread).ReleasePins? ==> Ended(c, s'.word))
  {
    assert PcWellFormed(PcOf(s, a.thread));
  }

  // ---------------------------------------------------------------- OFFLINE

  lemma OfflineStep(s: Sys, a: Action)
    requires Inv(s) && s.word.state == Offline
    ensures Step(s, a).word == s.word
  {
    assert PcWellFormed(PcOf(s, a.thread));
  }

  /** OFFLINE is absorbing, whichever thread does what. */
  lemma {:induction false} OfflineForever(s: Sys, run: seq<Action>)
    requires Inv(s) && s.word.state == Offline
    ensures Exec(s, run).word == s.word
    decreases run
  {
    if run != [] {
      OfflineStep(s, run[0]);
      StepKeepsWordInv(s, run[0]);
      StepKeepsGrantInv(s, run[0]);
      StepKeepsThreadInv(s, run[0]);
      OfflineForever(Step(s, run[0]), run[1..]);
    }
  }

  /** The generation never wraps: an acquire that wins the last generation goes OFFLINE and grants nothing. */
  lemma ExhaustionGoesOffline(s: Sys, t: nat, owner: Owner, win: bool, store: bool)
    requires Inv(s)
    requires s.word == Control(GENERATION_MAX, false, NoOwner)
    requires PcOf(s, t) == AcquireCas(owner, s.word)
    ensures var s' := Exec(s, [Action(t, Advance(win)), Action(t, Advance(store))]);
            && s'.word == Control(GENERATION_MAX, false, Offline)
            && s'.granted == s.granted
            && PcOf(s', t) == Done(IsOffline)
  {
    var run := [Action(t, Advance(win)), Action(t, Advance(store))];
    var mid := Step(s, run[0]);
    assert run[1..] == [run[1]];
    assert Exec(mid, run[1..]) == Exec(Step(mid, run[1]), run[1..][1..]);
  }

  // ---------------------------------------------------------------- calls nobody disturbs

  lemma ExecThree(s: Sys, a: Action, b: Action, c: Action)
    ensures Exec(s, [a, b, c]) == Step(Step(Step(s, a), b), c)
  {
    hide Step;
    assert [a, b, c][1..] == [b, c] && [b, c][1..] == [c] && [c][1..] == [];
    assert Exec(Step(Step(s, a), b), [c]) == Step(Step(Step(s, a), b), c);
  }

  function AcquireRun(t: nat, owner: Owner): seq<Action> {
    [Action(t, Start(Acquire(owner))), Action(t, Advance(true)), Action(t, Advance(true))] + [Action(t, Advance(true))]
  }

  /** On a free bus an undisturbed acquire, whose line reset succeeds, grants the next generation. */
  lemma AcquireAlone(s: Sys, t: nat, owner: Owner)
    requires Resting(PcOf(s, t)) && s.word == Control(s.word.generation, false, NoOwner)
    requires s.word.generation < GENERATION_MAX
    ensures var c := Claim(owner, s.word.generation + 1);
            Exec(s, AcquireRun(t, owner)) ==
            s.(word := ClaimWord(c), granted := s.granted + [c], threads := s.threads[t := Returned(Ok, YieldClaim(c))])
  {
    var g := s.word.generation;
    var start, go := Action(t, Start(Acquire(owner))), Action(t, Advance(true));
    var s1 := Goto(s, t, AcquireCas(owner, s.word));
    var s2 := s.(word := Control(g, false, Transition), threads := s.threads[t := LineReset(owner, g)]);
    var s3 := s2.(threads := s.threads[t := AcquireStore(owner, g)]);
    assert Step(s, start) == s1;
    assert s1.threads[t := LineReset(owner, g)] == s2.threads;
    assert Step(s1, go) == s2;
    assert s2.threads[t := AcquireStore(owner, g)] == s3.threads;
    assert Step(s2, go) == s3;
    var c := Claim(owner, g + 1);
    assert s3.threads[t := Returned(Ok, YieldClaim(c))] == s.threads[t := Returned(Ok, YieldClaim(c))];
    assert Exec(s3, [go]) == Step(s3, go) by {
      assert [go][1..] == [];
    }
    ExecThree(s, start, go, go);
    ExecConcat(s, [start, go, go], [go]);
  }

  function ReleaseRun(t: nat, call: Call): seq<Action> {
    [Action(t, Start(call)), Action(t, Advance(true)), Action(t, Advance(true))]
  }

  /** An undisturbed release of the current claim frees the bus and keeps the generation. */
  lemma ReleaseAlone(s: Sys, t: nat, c: Claim)
    requires Resting(PcOf(s, t)) && s.word == ClaimWord(c) && ValidClaim(c)
    ensures Exec(s, ReleaseRun(t, Release(c))) ==
            s.(word := Control(c.generation, false, NoOwner), threads := s.threads[t := Done(Ok)])
  {
    var g := c.generation;
    var start, go := Action(t, Start(Release(c))), Action(t, Advance(true));
    var s1 := s.(word := Control(g, false, Transition), threads := s.threads[t := ReleasePins(g, NoOwner, Ok)]);
    var s2 := s1.(threads := s.threads[t := ReleaseStore(g, NoOwner, Ok)]);
    assert Step(s, start) == s1;
    assert s1.threads[t := ReleaseStore(g, NoOwner, Ok)] == s2.threads;
    assert Step(s1, go) == s2;
    assert s2.threads[t := Done(Ok)] == s.threads[t := Done(Ok)];
    ExecThree(s, start, go, go);
  }

  /** Acquire and release, undisturbed, leave the bus as free as before, one generation later, with one grant more. */
  lemma AcquireThenRelease(s: Sys, t: nat, owner: Owner)
    requires Resting(PcOf(s, t)) && s.word == Control(s.word.generation, false, NoOwner)
    requires s.word.generation < GENERATION_MAX
    ensures var c := Claim(owner, s.word.generation + 1);
            Exec(s, AcquireRun(t, owner) + ReleaseRun(t, Release(c))) ==
            s.(word := Control(c.generation, false, NoOwner), granted := s.granted + [c],
               threads := s.threads[t := Done(Ok)])
  {
    var c := Claim(owner, s.word.generation + 1);
    AcquireAlone(s, t, owner);
    ExecConcat(s, AcquireRun(t, owner), ReleaseRun(t, Release(c)));
    var s1 := s.(word := ClaimWord(c), granted := s.granted + [c],
                 threads := s.threads[t := Returned(Ok, YieldClaim(c))]);
    ReleaseAlone(s1, t, c);
    hide Exec;
    hide AcquireRun;
    hide ReleaseRun;
    assert s1.threads[t := Done(Ok)] == s.threads[t := Done(Ok)];
  }
}
