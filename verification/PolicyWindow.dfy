/**
 What the two samples of an admission transaction prove: the epochs of the mode word count
 every change of the policy fields, so an unchanged stamp means the policy held in between,
 until an epoch has gone all the way round.
 */
module PolicyWindow {
  import O = Ownership
  import opened ModeWord
  import opened Options
  import opened Arbitration

  datatype Epoch = UsbOtaEpoch | WifiEpoch | ShellEpoch

  function Period(e: Epoch): nat { if e.ShellEpoch? then 32 else 256 }

  // Equal modulo the period, and a whole number of periods.
  predicate Congruent(a: nat, b: nat, e: Epoch) { if e.ShellEpoch? then a % 32 == b % 32 else a % 256 == b % 256 }

  predicate WholeTurns(n: nat, e: Epoch) { if e.ShellEpoch? then n % 32 == 0 else n % 256 == 0 }

  function NextEpoch(n: nat, e: Epoch): nat { if e.ShellEpoch? then (n + 1) % 32 else (n + 1) % 256 }

  function EpochOf(f: Fields, e: Epoch): nat {
    match e
    case UsbOtaEpoch => f.usbOtaEpoch
    case WifiEpoch => f.wifiEpoch
    case ShellEpoch => f.shellEpoch
  }

  // The commits an epoch counts.
  predicate Counts(f: Fields, entry: Entry, e: Epoch) {
    match entry.cause
    case Boot => false
    case ByRoute(_) => e.UsbOtaEpoch?
    case ByEvent(event) =>
      match e
      case UsbOtaEpoch => IsUsbOtaEvent(event)
      case WifiEpoch => IsWifiEvent(event)
      case ShellEpoch => f.shell != entry.mode.shell
  }

  // What an epoch watches over.
  predicate SameWatched(f: Fields, g: Fields, e: Epoch) {
    match e
    case UsbOtaEpoch => f.usb == g.usb && f.ota == g.ota && f.route == g.route
    case WifiEpoch => f.wifi == g.wifi
    case ShellEpoch => f.shell == g.shell
  }

  predicate Folded(log: seq<Entry>) {
    forall i :: 0 < i < |log| ==> Applied(log[i - 1].mode, log[i])
  }

  function Bumps(log: seq<Entry>, e: Epoch, i: nat, j: nat): nat
    requires i <= j < |log|
    decreases j
  {
    if i == j then 0
    else Bumps(log, e, i, j - 1) + (if Counts(log[j - 1].mode, log[j], e) then 1 else 0)
  }

  lemma OneCommit(f: Fields, entry: Entry, e: Epoch)
    requires Applied(f, entry)
    ensures entry.mode.initialized == f.initialized
    ensures if Counts(f, entry, e) then EpochOf(entry.mode, e) == NextEpoch(EpochOf(f, e), e)
            else EpochOf(entry.mode, e) == EpochOf(f, e) && SameWatched(f, entry.mode, e)
  {
    hide NextFields;
    if entry.cause.ByEvent? {
      EventTouches(f, entry.cause.event);
    }
  }

  lemma NextCongruent(a: nat, b: nat, e: Epoch)
    requires Congruent(a, b, e)
    ensures Congruent(NextEpoch(a, e), b + 1, e)
  {
    if e.ShellEpoch? {
      NextOf32(a);
      NextOf32(b);
    } else {
      NextOf256(a);
      NextOf256(b);
    }
  }

  lemma NextOf256(n: nat)
    ensures (n + 1) % 256 == if n % 256 == 255 then 0 else n % 256 + 1
  {
    var turns := n / 256;
    assert n == 256 * turns + n % 256;
  }

  lemma NextOf32(n: nat)
    ensures (n + 1) % 32 == if n % 32 == 31 then 0 else n % 32 + 1
  {
    var turns := n / 32;
    assert n == 32 * turns + n % 32;
  }

  /** The epoch counts its bumps modulo its period, whatever else happens in between. */
  lemma {:induction false} EpochCounts(log: seq<Entry>, e: Epoch, i: nat, j: nat)
    requires Folded(log) && i <= j < |log|
    ensures Congruent(EpochOf(log[j].mode, e), EpochOf(log[i].mode, e) + Bumps(log, e, i, j), e)
    decreases j
  {
    if i < j {
      EpochCounts(log, e, i, j - 1);
      assert Applied(log[j - 1].mode, log[j]);
      hide Applied;
      OneCommit(log[j - 1].mode, log[j], e);
      hide Congruent;
      NextCongruent(EpochOf(log[j - 1].mode, e), EpochOf(log[i].mode, e) + Bumps(log, e, i, j - 1), e);
    }
  }

  /** While an epoch does not move, the fields it watches do not change, and the word stays initialised. */
  lemma {:induction false} QuietFields(log: seq<Entry>, e: Epoch, i: nat, j: nat, k: nat)
    requires Folded(log) && i <= k <= j < |log|
    requires Bumps(log, e, i, j) == 0
    ensures SameWatched(log[i].mode, log[k].mode, e)
    ensures log[i].mode.initialized == log[k].mode.initialized
    decreases j
  {
    hide NextFields;
    hide RouteFields;
    hide NextEpoch;
    if i < j {
      if k < j {
        QuietFields(log, e, i, j - 1, k);
      } else {
        QuietFields(log, e, i, j - 1, j - 1);
        assert Applied(log[j - 1].mode, log[j]);
        hide Applied;
        OneCommit(log[j - 1].mode, log[j], e);
      }
    }
  }

  predicate Watches(kind: Kind, e: Epoch) {
    match e
    case UsbOtaEpoch => true
    case WifiEpoch => KindOwner(kind) == O.Network
    case ShellEpoch => kind.Board?
  }

  // The epochs stay within their widths.
  predicate InWidth(f: Fields) {
    f.usbOtaEpoch < 256 && f.wifiEpoch < 256 && f.shellEpoch < 32
  }

  lemma {:induction false} WidthsKept(log: seq<Entry>, j: nat)
    requires Folded(log) && j < |log| && InWidth(log[0].mode)
    ensures InWidth(log[j].mode)
  {
    if j > 0 {
      WidthsKept(log, j - 1);
      assert Applied(log[j - 1].mode, log[j]);
      hide Applied;
      forall e: Epoch
        ensures EpochOf(log[j].mode, e) < Period(e)
      {
        OneCommit(log[j - 1].mode, log[j], e);
      }
      assert EpochOf(log[j].mode, UsbOtaEpoch) < 256;
      assert EpochOf(log[j].mode, WifiEpoch) < 256;
      assert EpochOf(log[j].mode, ShellEpoch) < 32;
    }
  }

  lemma EqualEpochs(a: nat, b: nat, bumps: nat, e: Epoch)
    requires a < Period(e) && b < Period(e) && Congruent(b, a + bumps, e)
    ensures a == b <==> WholeTurns(bumps, e)
  {
    if e.ShellEpoch? {
      EqualBelow32(a, b, bumps);
    } else {
      EqualBelow256(a, b, bumps);
    }
  }

  lemma EqualBelow256(a: nat, b: nat, bumps: nat)
    requires a < 256 && b < 256 && b == (a + bumps) % 256
    ensures a == b <==> bumps % 256 == 0
  {
    var turns := (a + bumps) / 256;
    assert bumps == 256 * turns + (b - a);
  }

  lemma EqualBelow32(a: nat, b: nat, bumps: nat)
    requires a < 32 && b < 32 && b == (a + bumps) % 32
    ensures a == b <==> bumps % 32 == 0
  {
    var turns := (a + bumps) / 32;
    assert bumps == 32 * turns + (b - a);
  }

  lemma EpochsSeeBumps(log: seq<Entry>, e: Epoch, i: nat, j: nat)
    requires Folded(log) && i <= j < |log| && InWidth(log[0].mode)
    ensures EpochOf(log[i].mode, e) == EpochOf(log[j].mode, e) <==> WholeTurns(Bumps(log, e, i, j), e)
  {
    WidthsKept(log, i);
    WidthsKept(log, j);
    EpochCounts(log, e, i, j);
    EqualEpochs(EpochOf(log[i].mode, e), EpochOf(log[j].mode, e), Bumps(log, e, i, j), e);
  }

  /**
   What comparing two stamps tells, exactly: the watched fields are equal again and every
   watched epoch has moved a multiple of its period. So an A-B-A flip passes unnoticed if and
   only if the bumps in between are such a multiple.
   */
  lemma StampsSeeBumps(log: seq<Entry>, kind: Kind, i: nat, j: nat)
    requires Folded(log) && i <= j < |log| && InWidth(log[0].mode)
    ensures StampsAgree(kind, log[i].mode, log[j].mode) <==>
            forall e: Epoch :: Watches(kind, e) ==>
              SameWatched(log[i].mode, log[j].mode, e) && WholeTurns(Bumps(log, e, i, j), e)
  {
    hide Folded;
    hide Bumps;
    hide WholeTurns;
    forall e: Epoch
      ensures EpochOf(log[i].mode, e) == EpochOf(log[j].mode, e) <==> WholeTurns(Bumps(log, e, i, j), e)
    {
      EpochsSeeBumps(log, e, i, j);
    }
    StampsByEpoch(log[i].mode, log[j].mode, kind);
  }

  lemma StampsByEpoch(f: Fields, g: Fields, kind: Kind)
    ensures StampsAgree(kind, f, g) <==>
            forall e: Epoch :: Watches(kind, e) ==> SameWatched(f, g, e) && EpochOf(f, e) == EpochOf(g, e)
  {
    if forall e: Epoch :: Watches(kind, e) ==> SameWatched(f, g, e) && EpochOf(f, e) == EpochOf(g, e) {
      assert Watches(kind, UsbOtaEpoch) ==>
          SameWatched(f, g, UsbOtaEpoch) && EpochOf(f, UsbOtaEpoch) == EpochOf(g, UsbOtaEpoch);
      assert Watches(kind, WifiEpoch) ==>
          SameWatched(f, g, WifiEpoch) && EpochOf(f, WifiEpoch) == EpochOf(g, WifiEpoch);
      assert Watches(kind, ShellEpoch) ==>
          SameWatched(f, g, ShellEpoch) && EpochOf(f, ShellEpoch) == EpochOf(g, ShellEpoch);
    }
  }

  // Fewer bumps than a period, for every epoch the transaction compares.
  predicate WithinPeriods(log: seq<Entry>, kind: Kind, i: nat, j: nat)
    requires i <= j < |log|
  {
    forall e: Epoch :: Watches(kind, e) ==> Bumps(log, e, i, j) < Period(e)
  }

  lemma PolicyDepends(f: Fields, g: Fields, kind: Kind)
    requires f.initialized == g.initialized
    requires forall e: Epoch :: Watches(kind, e) ==> SameWatched(f, g, e)
    ensures PolicyResult(f, KindOwner(kind), true, kind.Board?) == PolicyResult(g, KindOwner(kind), true, kind.Board?)
  {
    assert SameWatched(f, g, UsbOtaEpoch);
    assert Watches(kind, WifiEpoch) ==> SameWatched(f, g, WifiEpoch);
    assert Watches(kind, ShellEpoch) ==> SameWatched(f, g, ShellEpoch);
  }

  lemma PolicyThroughout(log: seq<Entry>, kind: Kind, i: nat, j: nat, k: nat)
    requires Folded(log) && i <= k <= j < |log| && InWidth(log[0].mode)
    requires StampsAgree(kind, log[i].mode, log[j].mode) && WithinPeriods(log, kind, i, j)
    ensures PolicyResult(log[k].mode, KindOwner(kind), true, kind.Board?) ==
            PolicyResult(log[i].mode, KindOwner(kind), true, kind.Board?)
  {
    hide PolicyResult;
    StampsSeeBumps(log, kind, i, j);
    assert Watches(kind, UsbOtaEpoch);
    forall e: Epoch | Watches(kind, e)
      ensures SameWatched(log[i].mode, log[k].mode, e) && log[i].mode.initialized == log[k].mode.initialized
    {
      FewBumps(Bumps(log, e, i, j), e);
      QuietFields(log, e, i, j, k);
    }
    PolicyDepends(log[k].mode, log[i].mode, kind);
  }

  lemma FewBumps(n: nat, e: Epoch)
    requires n < Period(e) && WholeTurns(n, e)
    ensures n == 0
  {
  }

  // ---------------------------------------------------------------- runs

  // The position of an admission that is past its ownership change, or refused on the way.
  predicate Follows(pc: Pc, before: Sample, n: nat) {
    match pc
    case Acquiring(_, _, b) => b == before
    case AcquireSample(_, _, b, _) => b == before
    case Beginning(_, _, b) => b == before
    case BeginSample(_, _, b, _) => b == before
    case Admitted(_, b, after) => b == before && n <= after.at
    case Leaving(target) =>
      (target.Admitted? && target.before == before && n <= target.after.at) || target.Denied?
    case Denied(_) => true
    case AcquireReleaseCall(_, _, _, _) => true
    case AcquireReleasing(_, _, _) => true
    case AcquireRecheck(_, _, _) => true
    case BeginUndo(_, _, _, _) => true
    case BeginRecheck(_, _, _) => true
    case _ => false
  }

  // The next position does not depend on more than the thread's own.
  lemma FollowsAfterOwn(pc: Pc, before: Sample, n: nat, r: O.Result, got: O.Yielded)
    requires Follows(pc, before, n) && Waiting(pc)
    ensures Follows(AfterOwn(pc, r, got), before, n)
  {
  }

  lemma FollowsNext(s: Sys, pc: Pc, before: Sample, n: nat)
    requires Follows(pc, before, n) && n < |s.log|
    ensures Follows(AcquireNext(s, pc), before, n) && Follows(BeginNext(s, pc), before, n)
  {
    hide PolicyResult;
    hide SamePolicyFields;
  }

  lemma FollowsPending(pc: Pc, before: Sample, n: nat)
    requires Follows(pc, before, n) && PendingCall(pc).Some?
    ensures Follows(PendingCall(pc).value.target, before, n)
  {
  }

  lemma FollowsStep(s: Sys, a: Action, t: nat, before: Sample, n: nat)
    requires Follows(PcOf(s, t), before, n) && n < |s.log|
    requires a.thread == t ==> !a.choice.Start?
    ensures Follows(PcOf(Step(s, a), t), before, n)
  {
    if a.thread != t {
      StepMovesOneThread(s, a, t);
    } else if a.choice.Go? {
      hide O.Step;
      hide AcquireNext;
      hide BeginNext;
      hide PendingCall;
      hide AfterOwn;
      var pc, own := PcOf(s, t), O.PcOf(s.own, t);
      if Waiting(pc) {
        if own.Returned? {
          FollowsAfterOwn(pc, before, n, own.result, own.got);
        }
      } else if PendingCall(pc).Some? {
        FollowsPending(pc, before, n);
      } else {
        FollowsNext(s, pc, before, n);
      }
    }
  }

  lemma LogGrows(s: Sys, a: Action)
    requires Inv(s)
    ensures |s.log| <= |Step(s, a).log| && Step(s, a).log[..|s.log|] == s.log
  {
    hide Step;
    hide PcInv;
    assert PcInv(s, PcOf(s, a.thread));
    StepMoves(s, a);
  }

  lemma StepKeepsAll(s: Sys, a: Action)
    requires Inv(s)
    ensures Inv(Step(s, a))
  {
    hide Step;
    StepKeepsHistory(s, a);
    StepKeepsOwnership(s, a);
    StepKeepsRoute(s, a);
  }

  predicate NoStart(run: seq<Action>, t: nat) {
    forall i :: 0 <= i < |run| && run[i].thread == t ==> !run[i].choice.Start?
  }

  lemma {:induction false} FollowsRun(s: Sys, run: seq<Action>, t: nat, before: Sample, n: nat)
    requires Inv(s) && n < |s.log|
    requires Follows(PcOf(s, t), before, n) && NoStart(run, t)
    ensures Follows(PcOf(Exec(s, run), t), before, n)
    ensures |s.log| <= |Exec(s, run).log| && Exec(s, run).log[..|s.log|] == s.log
    decreases run
  {
    if run != [] {
      hide Step;
      hide Follows;
      var s' := Step(s, run[0]);
      FollowsStep(s, run[0], t, before, n);
      LogGrows(s, run[0]);
      StepKeepsAll(s, run[0]);
      FollowsRun(s', run[1..], t, before, n);
      assert s.log == s'.log[..|s.log|] == Exec(s, run).log[..|s'.log|][..|s.log|];
    }
  }

  // What a finished admission was granted on.
  predicate AdmittedOn(pc: Pc, kind: Kind, before: Sample, after: Sample) {
    pc == Admitted(kind, before, after) || pc == Leaving(Admitted(kind, before, after))
  }

  /**
   A-B-A safety of the admission transactions, over every interleaving: take a thread while it
   is inside its ownership call, in particular at the compare-and-swap. If that call goes on to
   be ALLOWED, and fewer bumps than a period fall between the two samples for each epoch it
   compares, then the policy allows it in the state where it was taken, as in every state from
   one sample to the other.
   */
  lemma AdmissionWindow(s0: Sys, run0: seq<Action>, run: seq<Action>, t: nat,
                        kind: Kind, before: Sample, after: Sample)
    requires Booted(s0)
    requires var s := Exec(s0, run0);
             && (PcOf(s, t).Acquiring? || PcOf(s, t).Beginning?)
             && NoStart(run, t)
             && AdmittedOn(PcOf(Exec(s, run), t), kind, before, after)
    ensures var log := Exec(Exec(s0, run0), run).log;
            before.at <= after.at < |log|
    ensures var s, log := Exec(s0, run0), Exec(Exec(s0, run0), run).log;
            WithinPeriods(log, kind, before.at, after.at) ==>
              && PolicyResult(s.mode, KindOwner(kind), true, kind.Board?) == Allowed
              && forall k :: before.at <= k <= after.at ==>
                   PolicyResult(log[k].mode, KindOwner(kind), true, kind.Board?) == Allowed
  {
    hide PolicyResult;
    hide SamePolicyFields;
    hide Step;
    hide PcInv;
    hide StampsAgree;
    hide Bumps;
    hide Applied;
    hide RouteInv;
    var s := Exec(s0, run0);
    var s' := Exec(s, run);
    BootedInv(s0);
    ExecKeepsInv(s0, run0);
    ExecKeepsInv(s, run);
    ExecKeepsFirst(s0, run0);
    ExecKeepsFirst(s, run);
    var n := |s.log| - 1;
    var b := PcOf(s, t).before;
    assert PcInv(s, PcOf(s, t)) && PcInv(s', PcOf(s', t));
    FollowsRun(s, run, t, b, n);
    KnowsSamples(s', t, kind, before, after);
    WasSampled(s, t);
    assert b == before;
    assert s'.log[..|s.log|][n] == s.log[n];
    if WithinPeriods(s'.log, kind, before.at, after.at) {
      forall k: int | before.at <= k <= after.at
        ensures PolicyResult(s'.log[k].mode, KindOwner(kind), true, kind.Board?) == Allowed
      {
        PolicyThroughout(s'.log, kind, before.at, after.at, k);
      }
    }
  }

  lemma KnowsSamples(s: Sys, t: nat, kind: Kind, before: Sample, after: Sample)
    requires PcInv(s, PcOf(s, t)) && AdmittedOn(PcOf(s, t), kind, before, after)
    ensures AdmittedOk(s, kind, before, after)
  {
    hide PolicyResult;
    hide SamePolicyFields;
  }

  lemma WasSampled(s: Sys, t: nat)
    requires PcInv(s, PcOf(s, t)) && (PcOf(s, t).Acquiring? || PcOf(s, t).Beginning?)
    ensures SampleOk(s, PcOf(s, t).before)
  {
    hide PolicyResult;
  }

  // ---------------------------------------------------------------- a full turn goes unnoticed

  lemma {:induction false} ExecConcat(s: Sys, first: seq<Action>, second: seq<Action>)
    ensures Exec(s, first + second) == Exec(Exec(s, first), second)
    decreases first
  {
    if first == [] {
      assert first + second == second;
    } else {
      assert (first + second)[1..] == first[1..] + second;
      hide Step;
      ExecConcat(Step(s, first[0]), first[1..], second);
    }
  }

  lemma ExecOne(s: Sys, a: Action)
    ensures Exec(s, [a]) == Step(s, a)
  {
    hide Step;
    assert [a][1..] == [];
    assert Exec(Step(s, a), []) == Step(s, a);
  }

  function EventRun(t: nat, event: Event): seq<Action> {
    [Action(t, Start(Transition(event)))] + [Action(t, Go(true))]
  }

  // An undisturbed event commits.
  lemma EventLands(s: Sys, t: nat, event: Event)
    requires Resting(PcOf(s, t)) && O.Resting(O.PcOf(s.own, t)) && s.mode.initialized
    requires !event.UsbAttached? && NextFields(s.mode, event).Some?
    ensures Exec(s, EventRun(t, event)) ==
            Commit(s, t, NextFields(s.mode, event).value, ByEvent(event), TransitionDone(TransitionOk))
  {
    hide NextFields;
    var first, second := Action(t, Start(Transition(event))), Action(t, Go(true));
    ExecConcat(s, [first], [second]);
    ExecOne(s, first);
    ExecOne(Step(s, first), second);
    var s1 := Step(s, first);
    assert s1 == Goto(s, t, TransitionCas(event, s.mode, NextFields(s.mode, event).value));
    var s2 := Step(s1, second);
    assert s2 == TransitionCommit(s1, t, event, NextFields(s.mode, event).value);
  }

  // A run of thread `t` that leaves everybody else and the arbiter alone and ends on the word `f`.
  ghost predicate OnlyMode(s: Sys, s': Sys, t: nat, f: Fields) {
    && s'.own == s.own && s'.mode == f
    && |s.log| <= |s'.log| && s'.log[..|s.log|] == s.log
    && Resting(PcOf(s', t))
    && forall u: nat :: u != t ==> PcOf(s', u) == PcOf(s, u)
  }

  lemma OnlyModeTwice(s: Sys, s1: Sys, s2: Sys, t: nat, f: Fields, g: Fields)
    requires OnlyMode(s, s1, t, f) && OnlyMode(s1, s2, t, g)
    ensures OnlyMode(s, s2, t, g)
  {
    assert s.log == s1.log[..|s.log|] == s2.log[..|s1.log|][..|s.log|];
  }

  function WifiFields(f: Fields, wifi: Wifi): Fields {
    f.(wifi := wifi, wifiEpoch := (f.wifiEpoch + 1) % 256)
  }

  lemma WifiEvents(f: Fields)
    ensures NextFields(f, WifiStopped) == Some(WifiFields(f, Stopped))
    ensures NextFields(f, WifiConnecting) == Some(WifiFields(f, Connecting))
    ensures f.wifi == Connecting ==> NextFields(f, WifiOnline) == Some(WifiFields(f, Online))
  {
  }

  lemma EventMoves(s: Sys, t: nat, event: Event, next: Fields)
    requires Resting(PcOf(s, t)) && O.Resting(O.PcOf(s.own, t)) && s.mode.initialized
    requires !event.UsbAttached? && NextFields(s.mode, event) == Some(next)
    ensures var s' := Exec(s, EventRun(t, event));
            && OnlyMode(s, s', t, next)
            && |s'.log| == |s.log| + 1 && s'.log[|s.log|].mode == next
  {
    hide NextFields;
    hide Step;
    hide EventRun;
    EventLands(s, t, event);
  }

  function StopRun(t: nat, n: nat): seq<Action> {
    if n == 0 then [] else StopRun(t, n - 1) + EventRun(t, WifiStopped)
  }

  lemma StaysPut(s: Sys, t: nat)
    requires Resting(PcOf(s, t)) && InWidth(s.mode)
    ensures OnlyMode(s, s, t, s.mode.(wifiEpoch := s.mode.wifiEpoch % 256))
  {
  }

  lemma {:induction false} StopsLand(s: Sys, t: nat, n: nat)
    requires Resting(PcOf(s, t)) && O.Resting(O.PcOf(s.own, t)) && s.mode.initialized && InWidth(s.mode)
    requires s.mode.wifi == Stopped
    ensures OnlyMode(s, Exec(s, StopRun(t, n)), t, s.mode.(wifiEpoch := (s.mode.wifiEpoch + n) % 256))
  {
    hide Step;
    hide EventRun;
    hide NextFields;
    hide OnlyMode;
    StaysPut(s, t);
    if n > 0 {
      hide Exec;
      StopsLand(s, t, n - 1);
      ExecConcat(s, StopRun(t, n - 1), EventRun(t, WifiStopped));
      StopAgain(s, Exec(s, StopRun(t, n - 1)), t, n - 1);
    }
  }

  lemma StopAgain(s: Sys, s1: Sys, t: nat, n: nat)
    requires O.Resting(O.PcOf(s.own, t)) && s.mode.initialized && s.mode.wifi == Stopped
    requires OnlyMode(s, s1, t, s.mode.(wifiEpoch := (s.mode.wifiEpoch + n) % 256))
    ensures OnlyMode(s, Exec(s1, EventRun(t, WifiStopped)), t, s.mode.(wifiEpoch := (s.mode.wifiEpoch + n + 1) % 256))
  {
    hide Step;
    hide EventRun;
    hide NextFields;
    var f := s.mode.(wifiEpoch := (s.mode.wifiEpoch + n) % 256);
    WifiEvents(f);
    NextOf256(s.mode.wifiEpoch + n);
    EventMoves(s1, t, WifiStopped, WifiFields(f, Stopped));
    OnlyModeTwice(s, s1, Exec(s1, EventRun(t, WifiStopped)), t, f, WifiFields(f, Stopped));
  }

  // 256 Wi-Fi events that leave the network as it was: down, 253 repetitions, and up again.
  function FlapRun(t: nat): seq<Action> {
    EventRun(t, WifiStopped) + (StopRun(t, 253) + (EventRun(t, WifiConnecting) + EventRun(t, WifiOnline)))
  }

  lemma UpLands(s: Sys, t: nat)
    requires Resting(PcOf(s, t)) && O.Resting(O.PcOf(s.own, t)) && s.mode.initialized && InWidth(s.mode)
    ensures var s' := Exec(s, EventRun(t, WifiConnecting) + EventRun(t, WifiOnline));
            OnlyMode(s, s', t, WifiFields(WifiFields(s.mode, Connecting), Online)) && |s'.log| >= |s.log| + 2
  {
    hide Step;
    hide EventRun;
    hide NextFields;
    var f := WifiFields(s.mode, Connecting);
    ExecConcat(s, EventRun(t, WifiConnecting), EventRun(t, WifiOnline));
    WifiEvents(s.mode);
    EventMoves(s, t, WifiConnecting, f);
    var s1 := Exec(s, EventRun(t, WifiConnecting));
    WifiEvents(f);
    EventMoves(s1, t, WifiOnline, WifiFields(f, Online));
    OnlyModeTwice(s, s1, Exec(s1, EventRun(t, WifiOnline)), t, f, WifiFields(f, Online));
  }

  lemma FlapLands(s: Sys, t: nat)
    requires Resting(PcOf(s, t)) && O.Resting(O.PcOf(s.own, t)) && s.mode.initialized && InWidth(s.mode)
    requires s.mode.wifi == Online
    ensures var s' := Exec(s, FlapRun(t));
            && OnlyMode(s, s', t, s.mode) && |s'.log| > |s.log| + 2
            && s'.log[|s.log|].mode == WifiFields(s.mode, Stopped)
  {
    hide Step;
    hide EventRun;
    hide StopRun;
    hide NextFields;
    var up := EventRun(t, WifiConnecting) + EventRun(t, WifiOnline);
    ExecConcat(s, EventRun(t, WifiStopped), StopRun(t, 253) + up);
    WifiEvents(s.mode);
    var f := WifiFields(s.mode, Stopped);
    EventMoves(s, t, WifiStopped, f);
    var s1 := Exec(s, EventRun(t, WifiStopped));
    StopsLand(s1, t, 253);
    ExecConcat(s1, StopRun(t, 253), up);
    var s2 := Exec(s1, StopRun(t, 253));
    UpLands(s2, t);
    var s3 := Exec(s2, up);
    FullTurn(s.mode.wifiEpoch);
    OnlyModeTwice(s1, s2, s3, t, s2.mode, s3.mode);
    OnlyModeTwice(s, s1, s3, t, f, s3.mode);
    assert s1.log[|s.log|] == s3.log[..|s1.log|][|s.log|];
  }

  lemma FullTurn(e: nat)
    requires e < 256
    ensures ((((e + 1) % 256 + 253) % 256 + 1) % 256 + 1) % 256 == e
  {
  }

  // The network acquires an idle bus, alone: it stands right before its second sample.
  function AcquireRun(t: nat): seq<Action> {
    [Action(t, Start(DapAcquire(O.Network, true)))] +
    ([Action(t, Go(true))] + ([Action(t, Go(true))] +
    ([Action(t, OwnAdvance(true))] + ([Action(t, OwnAdvance(true))] + [Action(t, OwnAdvance(true))]))))
  }

  // Nobody owns the bus, nobody is at work on it, and there is another generation to give out.
  predicate FreeWord(w: O.Control) {
    w == O.Control(w.generation, false, O.NoOwner) && w.generation < O.GENERATION_MAX
  }

  predicate BusIdle(s: Sys, t: nat) {
    && Resting(PcOf(s, t)) && O.Resting(O.PcOf(s.own, t))
    && FreeWord(s.own.word) && s.log != []
    && PolicyResult(s.mode, O.Network, true, false) == Allowed
  }

  // Up to the arbiter's compare-and-swap.
  lemma AcquireCalls(s: Sys, t: nat)
    requires BusIdle(s, t)
    ensures var s3 := Step(Step(Step(s, Action(t, Start(DapAcquire(O.Network, true)))), Action(t, Go(true))),
                           Action(t, Go(true)));
            s3 == s.(own := O.Goto(s.own, t, O.AcquireCas(O.Network, s.own.word)),
                     pcs := s.pcs[t := Acquiring(O.Network, true, Load(s))])
  {
    hide PolicyResult;
    AcquireStarts(s, t);
    AcquirePasses(Goto(s, t, AcquireAdmit(O.Network, true, false, Load(s))), t, Load(s));
  }

  lemma AcquireStarts(s: Sys, t: nat)
    requires BusIdle(s, t)
    ensures Step(s, Action(t, Start(DapAcquire(O.Network, true)))) ==
            Goto(s, t, AcquireAdmit(O.Network, true, false, Load(s)))
  {
    hide PolicyResult;
    hide O.Step;
  }

  lemma AcquirePasses(s: Sys, t: nat, before: Sample)
    requires PcOf(s, t) == AcquireAdmit(O.Network, true, false, before)
    requires O.Resting(O.PcOf(s.own, t)) && FreeWord(s.own.word)
    ensures Step(s, Action(t, Go(true))) == Goto(s, t, AcquireCall(O.Network, true, before))
  {
    hide O.Step;
    hide PolicyResult;
  }

  function NextClaim(w: O.Control): O.Claim { O.Claim(O.Network, w.generation + 1) }

  // From the compare-and-swap to the granted claim.
  lemma AcquireGrants(own: O.Sys, t: nat)
    requires FreeWord(own.word) && O.PcOf(own, t) == O.AcquireCas(O.Network, own.word)
    ensures var a := O.Action(t, O.Advance(true));
            var own' := O.Step(O.Step(O.Step(own, a), a), a);
            && O.PcOf(own', t) == O.Returned(O.Ok, O.YieldClaim(NextClaim(own.word)))
            && forall u: nat :: u != t ==> O.PcOf(own', u) == O.PcOf(own, u)
  {
    var a := O.Action(t, O.Advance(true));
    assert O.PcOf(O.Step(own, a), t) == O.LineReset(O.Network, own.word.generation);
    assert O.PcOf(O.Step(O.Step(own, a), a), t) == O.AcquireStore(O.Network, own.word.generation);
  }

  lemma AcquireRuns(s: Sys, t: nat)
    requires BusIdle(s, t)
    ensures var s' := Exec(s, AcquireRun(t));
            && s'.mode == s.mode && s'.log == s.log
            && PcOf(s', t) == Acquiring(O.Network, true, Load(s))
            && O.PcOf(s'.own, t) == O.Returned(O.Ok, O.YieldClaim(NextClaim(s.own.word)))
            && (forall u: nat :: u != t ==> PcOf(s', u) == PcOf(s, u) && O.PcOf(s'.own, u) == O.PcOf(s.own, u))
  {
    hide O.Step;
    hide BusIdle;
    var start, go, own := Action(t, Start(DapAcquire(O.Network, true))), Action(t, Go(true)),
        Action(t, OwnAdvance(true));
    AcquireCalls(s, t);
    var s3 := s.(own := O.Goto(s.own, t, O.AcquireCas(O.Network, s.own.word)),
                 pcs := s.pcs[t := Acquiring(O.Network, true, Load(s))]);
    IdleWord(s, t);
    AcquireGrants(s3.own, t);
    ThreeAdvances(s3, t);
    hide Step;
    ExecSix(s, start, go, go, own, own, own);
  }

  lemma IdleWord(s: Sys, t: nat)
    requires BusIdle(s, t)
    ensures FreeWord(s.own.word)
  {
  }

  lemma ThreeAdvances(s: Sys, t: nat)
    ensures var a, o := Action(t, OwnAdvance(true)), O.Action(t, O.Advance(true));
            Step(Step(Step(s, a), a), a) == s.(own := O.Step(O.Step(O.Step(s.own, o), o), o))
  {
    hide O.Step;
  }

  lemma ExecSix(s: Sys, a: Action, b: Action, c: Action, d: Action, e: Action, f: Action)
    ensures Exec(s, [a] + ([b] + ([c] + ([d] + ([e] + [f]))))) ==
        Step(Step(Step(Step(Step(Step(s, a), b), c), d), e), f)
  {
    hide Step;
    var s1 := Step(s, a);
    var s2 := Step(s1, b);
    var s3 := Step(s2, c);
    var s4 := Step(s3, d);
    var s5 := Step(s4, e);
    ExecOne(s, a);
    ExecOne(s1, b);
    ExecOne(s2, c);
    ExecOne(s3, d);
    ExecOne(s4, e);
    ExecOne(s5, f);
    ExecConcat(s, [a], [b] + ([c] + ([d] + ([e] + [f]))));
    ExecConcat(s1, [b], [c] + ([d] + ([e] + [f])));
    ExecConcat(s2, [c], [d] + ([e] + [f]));
    ExecConcat(s3, [d], [e] + [f]);
    ExecConcat(s4, [e], [f]);
  }

  // The second sample of an acquire whose claim has been granted, on a word as it was before.
  lemma SampleSteps(s: Sys, t: nat, before: Sample, claim: O.Claim)
    requires PcOf(s, t) == Acquiring(O.Network, true, before)
    requires O.PcOf(s.own, t) == O.Returned(O.Ok, O.YieldClaim(claim)) && s.mode == before.mode
    ensures Step(Step(s, Action(t, Go(true))), Action(t, Go(true))) ==
            Goto(s, t, Admitted(OnClaim(O.Network, claim), before, Load(s)))
  {
    hide O.Step;
    hide PolicyResult;
    var go := Action(t, Go(true));
    var s1 := Step(s, go);
    assert s1 == Goto(s, t, AcquireSample(O.Network, true, before, claim));
    SampleAgrees(s1, t, before, claim);
  }

  lemma SampleAgrees(s: Sys, t: nat, before: Sample, claim: O.Claim)
    requires PcOf(s, t) == AcquireSample(O.Network, true, before, claim) && s.mode == before.mode
    ensures Step(s, Action(t, Go(true))) == Goto(s, t, Admitted(OnClaim(O.Network, claim), before, Load(s)))
  {
    hide O.Step;
    hide PolicyResult;
    assert StampsAgree(OnClaim(O.Network, claim), before.mode, s.mode);
    hide StampsAgree;
    assert AcquireNext(s, PcOf(s, t)) == Admitted(OnClaim(O.Network, claim), before, Load(s));
    hide AcquireNext;
  }

  lemma SampleRuns(s: Sys, t: nat, before: Sample, claim: O.Claim)
    requires PcOf(s, t) == Acquiring(O.Network, true, before)
    requires O.PcOf(s.own, t) == O.Returned(O.Ok, O.YieldClaim(claim)) && s.mode == before.mode
    ensures Exec(s, [Action(t, Go(true))] + [Action(t, Go(true))]) ==
            Goto(s, t, Admitted(OnClaim(O.Network, claim), before, Load(s)))
  {
    hide Step;
    var go := Action(t, Go(true));
    SampleSteps(s, t, before, claim);
    ExecConcat(s, [go], [go]);
    ExecOne(s, go);
    ExecOne(Step(s, go), go);
  }

  /**
   The bound of `AdmissionWindow` cannot be dropped: from every state with a free bus, a generation
   left and the network up, an acquire can be ALLOWED across 256 Wi-Fi events during which Wi-Fi was off.
   */
  lemma FullTurnUnnoticed(s: Sys, t: nat, u: nat) returns (run: seq<Action>, before: Sample, after: Sample)
    requires t != u && InWidth(s.mode) && BusIdle(s, t)
    requires Resting(PcOf(s, u)) && O.Resting(O.PcOf(s.own, u))
    ensures var s' := Exec(s, run);
            && PcOf(s', t) == Admitted(OnClaim(O.Network, NextClaim(s.own.word)), before, after)
            && before.at + 1 < after.at < |s'.log|
            && PolicyResult(s'.log[before.at + 1].mode, O.Network, true, false) == Offline
  {
    hide Step;
    hide AcquireRun;
    hide FlapRun;
    var go := [Action(t, Go(true))] + [Action(t, Go(true))];
    IdleAllowed(s, t);
    AcquireRuns(s, t);
    var s1 := Exec(s, AcquireRun(t));
    FlapLands(s1, u);
    var s2 := Exec(s1, FlapRun(u));
    SampleRuns(s2, t, Load(s), NextClaim(s.own.word));
    ExecConcat(s, AcquireRun(t), FlapRun(u) + go);
    ExecConcat(s1, FlapRun(u), go);
    run := AcquireRun(t) + (FlapRun(u) + go);
    before, after := Load(s), Load(s2);
  }

  lemma IdleAllowed(s: Sys, t: nat)
    requires BusIdle(s, t)
    ensures s.mode.initialized && s.mode.wifi == Online && s.log != []
    ensures PolicyResult(WifiFields(s.mode, Stopped), O.Network, true, false) == Offline
  {
  }

  // The arbiter is initialised and Wi-Fi comes up.
  function UpRun(t: nat): seq<Action> {
    [Action(t, OwnStart(O.Initialize(true)))] +
    ([Action(t, OwnAdvance(true))] + (EventRun(t, WifiConnecting) + EventRun(t, WifiOnline)))
  }

  lemma Initializes(own: O.Sys, t: nat)
    requires own == O.Init
    ensures var own' := O.Step(O.Step(own, O.Action(t, O.Start(O.Initialize(true)))), O.Action(t, O.Advance(true)));
            && own'.word == O.Control(0, false, O.NoOwner)
            && forall u: nat :: O.Resting(O.PcOf(own', u))
  {
    var own1 := O.Step(own, O.Action(t, O.Start(O.Initialize(true))));
    assert O.PcOf(own1, t) == O.InitializeStore;
  }

  lemma InitializeLands(s: Sys, t: nat)
    requires Booted(s)
    ensures var s' := Exec(s, [Action(t, OwnStart(O.Initialize(true)))] + [Action(t, OwnAdvance(true))]);
            && s' == s.(own := s'.own) && s'.own.word == O.Control(0, false, O.NoOwner)
            && (forall u: nat :: O.Resting(O.PcOf(s'.own, u)))
  {
    var first, second := Action(t, OwnStart(O.Initialize(true))), Action(t, OwnAdvance(true));
    Initializes(s.own, t);
    hide O.Step;
    ExecConcat(s, [first], [second]);
    ExecOne(s, first);
    ExecOne(Step(s, first), second);
  }

  lemma UpReached(s: Sys, t: nat)
    requires Booted(s) && s.stored != UsbRoute
    ensures var s' := Exec(s, UpRun(t));
            InWidth(s'.mode) && s'.own.word.generation == 0 && forall u: nat :: BusIdle(s', u)
  {
    var first, second := Action(t, OwnStart(O.Initialize(true))), Action(t, OwnAdvance(true));
    var up := EventRun(t, WifiConnecting) + EventRun(t, WifiOnline);
    hide EventRun;
    InitializeLands(s, t);
    var s1 := Exec(s, [first] + [second]);
    UpLands(s1, t);
    assert UpRun(t) == [first] + [second] + up;
    ExecConcat(s, [first] + [second], up);
    hide Exec;
  }

  /** And it does happen: such a run exists from every boot whose stored route lets the network in. */
  lemma FullTurnFromBoot(s: Sys, t: nat, u: nat) returns (run: seq<Action>, before: Sample, after: Sample)
    requires Booted(s) && s.stored != UsbRoute && t != u
    ensures var s' := Exec(s, run);
            && PcOf(s', t) == Admitted(OnClaim(O.Network, O.Claim(O.Network, 1)), before, after)
            && before.at + 1 < after.at < |s'.log|
            && PolicyResult(s'.log[before.at + 1].mode, O.Network, true, false) == Offline
  {
    UpReached(s, t);
    hide UpRun;
    var s1 := Exec(s, UpRun(t));
    assert BusIdle(s1, t) && BusIdle(s1, u);
    var rest: seq<Action>;
    rest, before, after := FullTurnUnnoticed(s1, t, u);
    ExecConcat(s, UpRun(t), rest);
    run := UpRun(t) + rest;
  }
}
