/**
 DAP_Transfer in `firmware/components/dap_protocol/dap_protocol.c`: the request is measured, scanned
 without checks for the size of its response, and executed. Here are the three walks over the same
 bytes, what execution means, and the method that does it on the buffers. The target answers through
 an arbitrary sequence of replies.
 */
module DapTransfer {
  import opened Bytes
  import opened DapRequest

  const TRANSFER_OK: Byte := 1
  const TRANSFER_ERROR: Byte := 8
  const OK_MISMATCH: Byte := 17
  const PORT_SWD := 1
  const RDBUFF: Byte := 0x0E

  // ---------------------------------------------------------------- descriptors

  datatype Desc =
    | MaskWord(request: Byte, value: Word)
    | MaskRead(request: Byte)
    | MatchWord(request: Byte, value: Word)
    | WriteWord(request: Byte, value: Word)
    | ReadWord(request: Byte)

  function Width(t: Byte): nat { if CarriesWord(t) then 5 else 1 }

  function WordAt(s: seq<Byte>, at: nat): Word
    requires at + 4 <= |s|
  {
    GetLe32(s[at], s[at + 1], s[at + 2], s[at + 3])
  }

  function DescAt(s: seq<Byte>, at: nat): Desc
    requires at < |s| && at + Width(s[at]) <= |s|
  {
    var t := s[at];
    if IsMatchMask(t) then (if IsRead(t) then MaskRead(t) else MaskWord(t, WordAt(s, at + 1)))
    else if IsMatchValue(t) then MatchWord(t, WordAt(s, at + 1))
    else if IsRead(t) then ReadWord(t)
    else WriteWord(t, WordAt(s, at + 1))
  }

  // The descriptors of a request that is framed.
  function Descriptors(s: seq<Byte>, at: nat, n: nat): seq<Desc>
    requires TransferSize(s, at, n).Framed?
    decreases n
  {
    if n == 0 then [] else [DescAt(s, at)] + Descriptors(s, at + Width(s[at]), n - 1)
  }

  lemma {:induction false} DescriptorCount(s: seq<Byte>, at: nat, n: nat)
    requires TransferSize(s, at, n).Framed?
    ensures |Descriptors(s, at, n)| == n
    decreases n
  {
    if n > 0 {
      DescriptorCount(s, at + Width(s[at]), n - 1);
    }
  }

  // ---------------------------------------------------------------- the unchecked scan

  // What a read adds to the response.
  function ReadBytes(t: Byte): nat {
    if IsRead(t) && !IsMatchValue(t) then (if HasTimestamp(t) then 8 else 4) else 0
  }

  datatype Scan = Scan(end: nat, required: nat) | OutOfBounds

  function ScanFrom(s: seq<Byte>, at: nat, required: nat, n: nat): Scan
    decreases n
  {
    if n == 0 then Scan(at, required)
    else if at >= |s| then OutOfBounds
    else ScanFrom(s, at + (if !IsRead(s[at]) || IsMatchValue(s[at]) then 5 else 1), required + ReadBytes(s[at]), n - 1)
  }

  function Needed(descs: seq<Desc>): nat {
    if descs == [] then 0 else ReadBytes(descs[0].request) + Needed(descs[1..])
  }

  /** On every framed request the unchecked scan stays inside and ends exactly at the framed length. */
  lemma {:induction false} ScanAgrees(s: seq<Byte>, at: nat, required: nat, n: nat)
    requires TransferSize(s, at, n).Framed?
    ensures ScanFrom(s, at, required, n) == Scan(TransferSize(s, at, n).length,
                                                 required + Needed(Descriptors(s, at, n)))
    decreases n
  {
    if n > 0 {
      ScanAgrees(s, at + Width(s[at]), required + ReadBytes(s[at]), n - 1);
      var all := Descriptors(s, at, n);
      assert all[1..] == Descriptors(s, at + Width(s[at]), n - 1);
      assert all[0].request == s[at];
    }
  }

  // ---------------------------------------------------------------- execution

  datatype Reply = Reply(answered: bool, data: Word, status: Byte)

  datatype Access = Access(ap: bool, read: bool, address: nat, data: Word)

  function AccessOf(t: Byte, data: Word): Access { Access(t % 2 == 1, IsRead(t), (t / 4) % 4 * 4, data) }

  function StatusOf(r: Reply): Byte { if r.answered then r.status else TRANSFER_ERROR }

  predicate Succeeds(r: Reply) { StatusOf(r) == TRANSFER_OK }

  function And(a: Word, b: Word): Word { ((a as bv32) & (b as bv32)) as Word }

  datatype Tried = Tried(calls: nat, status: Byte, matched: bool, log: seq<Access>)

  // At most `tries` reads until one matches under the mask.
  function TryMatch(replies: nat -> Reply, calls: nat, t: Byte, value: Word, mask: Word, tries: nat): (m: Tried)
    ensures calls <= m.calls && (m.matched ==> calls < m.calls)
    decreases tries
  {
    if tries == 0 then Tried(calls, TRANSFER_OK, false, [])
    else
      var r := replies(calls);
      if !Succeeds(r) then Tried(calls + 1, StatusOf(r), false, [AccessOf(t, 0)])
      else if And(r.data, mask) == And(value, mask) then Tried(calls + 1, TRANSFER_OK, true, [AccessOf(t, 0)])
      else
        var rest := TryMatch(replies, calls + 1, t, value, mask, tries - 1);
        rest.(log := [AccessOf(t, 0)] + rest.log)
  }

  /** A completed descriptor, with the index of the reply that completed it. */
  datatype Done = Done(desc: Desc, reply: nat)

  datatype Out = Out(done: seq<Done>, status: Byte, calls: nat, mask: Word, pending: bool, invalid: bool,
                     log: seq<Access>)

  function Completed(d: Done, log: seq<Access>, rest: Out): Out {
    rest.(done := [d] + rest.done, log := log + rest.log)
  }

  /** One descriptor: whether it completed, by which reply, and the state it leaves. */
  datatype One = One(ok: bool, reply: nat, status: Byte, calls: nat, mask: Word, pending: bool, invalid: bool,
                     log: seq<Access>)

  // `pending`: the last plain transfer was a write.
  function Perform(d: Desc, replies: nat -> Reply, retries: nat, mask: Word, calls: nat, pending: bool): One {
    match d
    case MaskRead(_) => One(false, calls, TRANSFER_OK, calls, mask, pending, true, [])
    case MaskWord(_, value) => One(true, calls, TRANSFER_OK, calls, value, pending, false, [])
    case MatchWord(t, value) =>
      var m := TryMatch(replies, calls, t, value, mask, retries + 1);
      One(m.matched, if m.matched then m.calls - 1 else calls,
          if !m.matched && m.status == TRANSFER_OK then OK_MISMATCH else m.status, m.calls, mask, pending, false, m.log)
    case WriteWord(t, value) =>
      var r := replies(calls);
      One(Succeeds(r), calls, StatusOf(r), calls + 1, mask, pending || Succeeds(r), false, [AccessOf(t, value)])
    case ReadWord(t) =>
      var r := replies(calls);
      One(Succeeds(r), calls, StatusOf(r), calls + 1, mask, pending && !Succeeds(r), false, [AccessOf(t, 0)])
  }

  function Execute(descs: seq<Desc>, replies: nat -> Reply, retries: nat, mask: Word, calls: nat, pending: bool): Out
    decreases |descs|
  {
    if descs == [] then Out([], TRANSFER_OK, calls, mask, pending, false, [])
    else
      var o := Perform(descs[0], replies, retries, mask, calls, pending);
      if !o.ok then Out([], o.status, o.calls, o.mask, o.pending, o.invalid, o.log)
      else
        Completed(Done(descs[0], o.reply), o.log, Execute(descs[1..], replies, retries, o.mask, o.calls, o.pending))
  }

  // What a completed descriptor puts into the response.
  function Encoded(replies: nat -> Reply, d: Done): seq<Byte> {
    if d.desc.ReadWord?
    then (if HasTimestamp(d.desc.request) then [0, 0, 0, 0] else []) + PutLe32(replies(d.reply).data)
    else []
  }

  function Words(replies: nat -> Reply, done: seq<Done>): seq<Byte> {
    if done == [] then [] else Encoded(replies, done[0]) + Words(replies, done[1..])
  }

  // A match is a successful reply that agrees under the mask; a mismatch has used every try.
  lemma {:induction false} TryMatchProgress(replies: nat -> Reply, calls: nat, t: Byte, value: Word, mask: Word,
                                            tries: nat)
    ensures var m := TryMatch(replies, calls, t, value, mask, tries);
            && calls <= m.calls <= calls + tries && |m.log| == m.calls - calls
            && (m.matched ==>
                  && calls < m.calls && Succeeds(replies(m.calls - 1))
                  && And(replies(m.calls - 1).data, mask) == And(value, mask))
            && (!m.matched && m.status == TRANSFER_OK ==> m.calls == calls + tries)
    decreases tries
  {
    hide And;
    hide AccessOf;
    if tries > 0 {
      TryMatchProgress(replies, calls + 1, t, value, mask, tries - 1);
    }
  }

  // What was done is a prefix of what was asked: all of it, unless a transfer failed or a mask was read.
  predicate PrefixOf(descs: seq<Desc>, out: Out) {
    && |out.done| <= |descs|
    && (forall i :: 0 <= i < |out.done| ==> out.done[i].desc == descs[i])
    && (out.invalid ==> |out.done| < |descs| && descs[|out.done|].MaskRead?)
    && (!out.invalid && out.status == TRANSFER_OK ==> |out.done| == |descs|)
  }

  lemma PrefixGrows(d: Done, log: seq<Access>, rest: seq<Desc>, out: Out)
    requires PrefixOf(rest, out)
    ensures PrefixOf([d.desc] + rest, Completed(d, log, out))
  {
  }

  lemma PrefixStops(descs: seq<Desc>, out: Out)
    requires descs != [] && out.done == [] && (if out.invalid then descs[0].MaskRead? else out.status != TRANSFER_OK)
    ensures PrefixOf(descs, out)
  {
  }

  lemma PerformFacts(d: Desc, replies: nat -> Reply, retries: nat, mask: Word, calls: nat, pending: bool)
    ensures var o := Perform(d, replies, retries, mask, calls, pending);
            && calls <= o.calls && |o.log| == o.calls - calls
            && (o.ok ==> !o.invalid && o.status == TRANSFER_OK)
            && (o.ok && !d.MaskWord? ==> calls <= o.reply < o.calls && Succeeds(replies(o.reply)))
            && (!o.ok ==> if o.invalid then d.MaskRead? else o.status != TRANSFER_OK)
  {
    hide AccessOf;
    hide And;
    if d.MatchWord? {
      TryMatchProgress(replies, calls, d.request, d.value, mask, retries + 1);
      MatchStatus(replies, calls, d.request, d.value, mask, retries + 1);
    }
    hide TryMatch;
  }

  lemma {:induction false} MatchStatus(replies: nat -> Reply, calls: nat, t: Byte, value: Word, mask: Word, tries: nat)
    ensures var m := TryMatch(replies, calls, t, value, mask, tries); m.matched ==> m.status == TRANSFER_OK
    decreases tries
  {
    hide And;
    hide AccessOf;
    if tries > 0 {
      MatchStatus(replies, calls + 1, t, value, mask, tries - 1);
    }
  }

  /** The completed descriptors are a prefix of the request; all of it, unless a transfer failed or a mask was read. */
  lemma {:induction false} ExecutionIsPrefix(descs: seq<Desc>, replies: nat -> Reply, retries: nat, mask: Word,
                                             calls: nat, pending: bool)
    ensures PrefixOf(descs, Execute(descs, replies, retries, mask, calls, pending))
    decreases |descs|
  {
    hide Perform;
    if descs != [] {
      hide PrefixOf;
      hide Completed;
      var d, rest := descs[0], descs[1..];
      assert descs == [d] + rest;
      var o := Perform(d, replies, retries, mask, calls, pending);
      PerformFacts(d, replies, retries, mask, calls, pending);
      if o.ok {
        ExecutionIsPrefix(rest, replies, retries, o.mask, o.calls, o.pending);
        PrefixGrows(Done(d, o.reply), o.log, rest, Execute(rest, replies, retries, o.mask, o.calls, o.pending));
      } else {
        PrefixStops(descs, Execute(descs, replies, retries, mask, calls, pending));
      }
    }
  }

  // The access a descriptor asks for.
  function AccessFor(d: Desc): Access { AccessOf(d.request, if d.WriteWord? then d.value else 0) }

  // Replies and accesses are counted from `from`: the one at `log[k]` is answered by reply `from + k`.
  predicate InOrder(done: seq<Done>, replies: nat -> Reply, log: seq<Access>, from: nat) {
    && (forall i :: 0 <= i < |done| && !done[i].desc.MaskWord? ==>
          && from <= done[i].reply < from + |log| && Succeeds(replies(done[i].reply))
          && log[done[i].reply - from] == AccessFor(done[i].desc))
    && (forall i, j :: 0 <= i < j < |done| && !done[i].desc.MaskWord? && !done[j].desc.MaskWord? ==>
          done[i].reply < done[j].reply)
  }

  lemma InOrderGrows(d: Done, done: seq<Done>, replies: nat -> Reply, first: seq<Access>, log: seq<Access>, from: nat)
    requires InOrder(done, replies, log, from + |first|)
    requires !d.desc.MaskWord? ==>
               && from <= d.reply < from + |first| && Succeeds(replies(d.reply))
               && first[d.reply - from] == AccessFor(d.desc)
    ensures InOrder([d] + done, replies, first + log, from)
  {
    hide AccessFor;
    var all := [d] + done;
    forall i | 0 <= i < |all| && !all[i].desc.MaskWord?
      ensures from <= all[i].reply < from + |first + log| && Succeeds(replies(all[i].reply))
      ensures (first + log)[all[i].reply - from] == AccessFor(all[i].desc)
    {
      if i > 0 {
        assert all[i] == done[i - 1];
      }
    }
    forall i, j | 0 <= i < j < |all| && !all[i].desc.MaskWord? && !all[j].desc.MaskWord?
      ensures all[i].reply < all[j].reply
    {
      assert all[j] == done[j - 1];
      if i > 0 {
        assert all[i] == done[i - 1];
      }
    }
  }

  predicate Repeats(log: seq<Access>, access: Access) { forall k :: 0 <= k < |log| ==> log[k] == access }

  lemma PerformLogs(d: Desc, replies: nat -> Reply, retries: nat, mask: Word, calls: nat, pending: bool)
    ensures Repeats(Perform(d, replies, retries, mask, calls, pending).log, AccessFor(d))
  {
    if d.MatchWord? {
      MatchLogs(replies, calls, d.request, d.value, mask, retries + 1);
      hide TryMatch;
    }
    hide AccessOf;
  }

  lemma {:induction false} MatchLogs(replies: nat -> Reply, calls: nat, t: Byte, value: Word, mask: Word, tries: nat)
    ensures Repeats(TryMatch(replies, calls, t, value, mask, tries).log, AccessOf(t, 0))
    decreases tries
  {
    hide And;
    hide AccessOf;
    if tries > 0 {
      MatchLogs(replies, calls + 1, t, value, mask, tries - 1);
    }
  }

  /**
   Each completed descriptor had a successful reply of its own, in order, to an access of the port,
   direction and register it names, with its word if it is a write; and every reply answers one access.
   */
  lemma {:induction false} RepliesInOrder(
      descs: seq<Desc>, replies: nat -> Reply, retries: nat, mask: Word, calls: nat, pending: bool)
    ensures var out := Execute(descs, replies, retries, mask, calls, pending);
            out.calls == calls + |out.log| && InOrder(out.done, replies, out.log, calls)
    decreases |descs|
  {
    hide Perform;
    hide InOrder;
    hide AccessFor;
    if descs == [] {
      NothingInOrder(replies, [], calls);
    } else {
      var d, rest := descs[0], descs[1..];
      var o := Perform(d, replies, retries, mask, calls, pending);
      PerformFacts(d, replies, retries, mask, calls, pending);
      PerformLogs(d, replies, retries, mask, calls, pending);
      if o.ok {
        RepliesInOrder(rest, replies, retries, o.mask, o.calls, o.pending);
        var tail := Execute(rest, replies, retries, o.mask, o.calls, o.pending);
        InOrderGrows(Done(d, o.reply), tail.done, replies, o.log, tail.log, calls);
      } else {
        NothingInOrder(replies, o.log, calls);
      }
    }
  }

  lemma NothingInOrder(replies: nat -> Reply, log: seq<Access>, from: nat)
    ensures InOrder([], replies, log, from)
  {
  }

  // ---------------------------------------------------------------- the whole story of an execution

  predicate Agrees(data: Word, value: Word, mask: Word) { And(data, mask) == And(value, mask) }

  // Replies `from` up to `to` are answers to a value match that do not match.
  predicate Misses(d: Desc, replies: nat -> Reply, from: nat, to: nat, mask: Word) {
    forall j :: from <= j < to ==> d.MatchWord? && Succeeds(replies(j)) && !Agrees(replies(j).data, d.value, mask)
  }

  function Tries(d: Desc, retries: nat): nat { if d.MatchWord? then retries + 1 else 1 }

  // The descriptor completes with its `n`-th access, answered by reply `from + n - 1`.
  predicate Serves(d: Desc, replies: nat -> Reply, from: nat, n: nat, mask: Word, retries: nat) {
    && 1 <= n <= Tries(d, retries) && Misses(d, replies, from, from + n - 1, mask)
    && Succeeds(replies(from + n - 1)) && (d.MatchWord? ==> Agrees(replies(from + n - 1).data, d.value, mask))
  }

  // Or it gives up with it: refused, or the last try of a match that did not match.
  predicate Fails(d: Desc, replies: nat -> Reply, from: nat, n: nat, mask: Word, retries: nat) {
    && 1 <= n <= Tries(d, retries) && Misses(d, replies, from, from + n - 1, mask)
    && (Succeeds(replies(from + n - 1)) ==>
          d.MatchWord? && n == Tries(d, retries) && !Agrees(replies(from + n - 1).data, d.value, mask))
  }

  // `done` and `log` are what the descriptors come to with these replies, one descriptor after the other.
  predicate Accounts(descs: seq<Desc>, done: seq<Done>, log: seq<Access>, replies: nat -> Reply, from: nat,
                     mask: Word, retries: nat)
    decreases |descs|
  {
    if descs == [] || descs[0].MaskRead? then done == [] && log == []
    else if descs[0].MaskWord? then
      && done != [] && done[0].desc == descs[0]
      && Accounts(descs[1..], done[1..], log, replies, from, descs[0].value, retries)
    else if done == [] then Fails(descs[0], replies, from, |log|, mask, retries) && Repeats(log, AccessFor(descs[0]))
    else
      && done[0].desc == descs[0] && from <= done[0].reply < from + |log|
      && ServedFirst(descs[0], done[0].reply, log, replies, from, mask, retries)
      && Accounts(descs[1..], done[1..], log[done[0].reply + 1 - from..], replies, done[0].reply + 1, mask, retries)
  }

  // The accesses up to the one answered by `reply` are those of descriptor `d`, which completes with it.
  predicate ServedFirst(d: Desc, reply: nat, log: seq<Access>, replies: nat -> Reply, from: nat, mask: Word,
                        retries: nat)
    requires from <= reply < from + |log|
  {
    Serves(d, replies, from, reply + 1 - from, mask, retries) && Repeats(log[..reply + 1 - from], AccessFor(d))
  }

  lemma {:induction false} MatchServes(d: Desc, replies: nat -> Reply, calls: nat, mask: Word, tries: nat)
    requires d.MatchWord?
    ensures var m := TryMatch(replies, calls, d.request, d.value, mask, tries);
            && |m.log| == m.calls - calls
            && (tries > 0 ==>
                  && calls < m.calls <= calls + tries && Misses(d, replies, calls, m.calls - 1, mask)
                  && (m.matched <==> Succeeds(replies(m.calls - 1)) && Agrees(replies(m.calls - 1).data, d.value, mask))
                  && (m.status == StatusOf(replies(m.calls - 1)))
                  && (!m.matched && Succeeds(replies(m.calls - 1)) ==> m.calls == calls + tries))
    decreases tries
  {
    hide And;
    hide AccessOf;
    if tries > 1 {
      MatchServes(d, replies, calls + 1, mask, tries - 1);
    }
  }

  lemma PerformServes(d: Desc, replies: nat -> Reply, retries: nat, mask: Word, calls: nat, pending: bool)
    requires !d.MaskWord? && !d.MaskRead?
    ensures var o := Perform(d, replies, retries, mask, calls, pending);
            && o.calls == calls + |o.log| && o.mask == mask && |o.log| > 0
            && (if o.ok then o.reply == o.calls - 1 && Serves(d, replies, calls, |o.log|, mask, retries)
                else Fails(d, replies, calls, |o.log|, mask, retries) && o.status == FailStatus(replies(o.calls - 1)))
  {
    hide And;
    hide AccessOf;
    if d.MatchWord? {
      MatchServes(d, replies, calls, mask, retries + 1);
    }
    hide TryMatch;
    hide Agrees;
  }

  // What a failed descriptor reports.
  function FailStatus(last: Reply): Byte { if Succeeds(last) then OK_MISMATCH else StatusOf(last) }

  /**
   What an execution did, descriptor by descriptor: each mask is set for those after it; each plain
   transfer is one access; each match is accesses until one agrees under the mask, all before it having
   succeeded and disagreed; it stops at the first that is refused or has no try left, reporting why.
   */
  lemma {:induction false} ExecutionAccounts(
      descs: seq<Desc>, replies: nat -> Reply, retries: nat, mask: Word, calls: nat, pending: bool)
    ensures var out := Execute(descs, replies, retries, mask, calls, pending);
            && Accounts(descs, out.done, out.log, replies, calls, mask, retries)
            && out.calls == calls + |out.log| && |out.done| <= |descs|
            && (|out.done| == |descs| ==> out.status == TRANSFER_OK && out.pending == PendingAfter(descs, pending))
            && (|out.done| < |descs| && !out.invalid ==>
                  |out.log| > 0 && out.status == FailStatus(replies(out.calls - 1)) != TRANSFER_OK)
    decreases |descs|
  {
    hide Perform;
    hide Accounts;
    hide Serves;
    hide Fails;
    hide AccessFor;
    hide FailStatus;
    hide Repeats;
    if descs == [] {
      AccountsNothing(replies, calls, mask, retries);
    } else {
      var d, rest := descs[0], descs[1..];
      var o := Perform(d, replies, retries, mask, calls, pending);
      PerformFacts(d, replies, retries, mask, calls, pending);
      PerformPends(d, replies, retries, mask, calls, pending);
      PerformLogs(d, replies, retries, mask, calls, pending);
      if !d.MaskWord? && !d.MaskRead? {
        PerformServes(d, replies, retries, mask, calls, pending);
      }
      if o.ok {
        ExecutionAccounts(rest, replies, retries, o.mask, o.calls, o.pending);
        var tail := Execute(rest, replies, retries, o.mask, o.calls, o.pending);
        if d.MaskWord? {
          AccountsMask(descs, Done(d, o.reply), tail.done, tail.log, replies, calls, mask, retries);
          assert [] + tail.log == tail.log;
        } else {
          AccountsStep(descs, Done(d, o.reply), tail.done, o.log, tail.log, replies, calls, mask, retries);
        }
      } else {
        AccountsStops(descs, o.log, replies, calls, mask, retries);
      }
    }
  }

  lemma AccountsNothing(replies: nat -> Reply, from: nat, mask: Word, retries: nat)
    ensures Accounts([], [], [], replies, from, mask, retries)
  {
  }

  lemma PerformPends(d: Desc, replies: nat -> Reply, retries: nat, mask: Word, calls: nat, pending: bool)
    ensures var o := Perform(d, replies, retries, mask, calls, pending);
            && (o.ok ==> o.pending == Pends(d, pending) && !o.invalid && !d.MaskRead?)
            && (d.MaskWord? ==> o.ok && o.mask == d.value && o.log == [] && o.calls == calls)
            && (d.MaskRead? ==> !o.ok && o.invalid && o.log == [] && o.calls == calls)
            && (!o.ok && !d.MaskRead? ==> !o.invalid)
  {
    hide TryMatch;
    hide AccessOf;
  }

  // Whether a completed descriptor leaves a write that has still to be flushed.
  function Pends(d: Desc, pending: bool): bool {
    if d.WriteWord? then true else if d.ReadWord? then false else pending
  }

  function PendingAfter(descs: seq<Desc>, pending: bool): bool {
    if descs == [] then pending else PendingAfter(descs[1..], Pends(descs[0], pending))
  }

  lemma {:induction false} AccountsMask(descs: seq<Desc>, d: Done, done: seq<Done>, log: seq<Access>,
                     replies: nat -> Reply, from: nat, mask: Word, retries: nat)
    requires descs != [] && d.desc == descs[0] && d.desc.MaskWord?
    requires Accounts(descs[1..], done, log, replies, from, d.desc.value, retries)
    ensures Accounts(descs, [d] + done, log, replies, from, mask, retries)
  {
    assert ([d] + done)[1..] == done;
  }

  lemma {:induction false} AccountsStep(descs: seq<Desc>, d: Done, done: seq<Done>, first: seq<Access>,
                                        log: seq<Access>,
                     replies: nat -> Reply, from: nat, mask: Word, retries: nat)
    requires descs != [] && d.desc == descs[0] && !d.desc.MaskRead? && !d.desc.MaskWord?
    requires |first| > 0 && d.reply == from + |first| - 1 && Serves(d.desc, replies, from, |first|, mask, retries)
    requires Repeats(first, AccessFor(d.desc))
    requires Accounts(descs[1..], done, log, replies, from + |first|, mask, retries)
    ensures Accounts(descs, [d] + done, first + log, replies, from, mask, retries)
  {
    hide Serves;
    hide AccessFor;
    var all := [d] + done;
    assert all[1..] == done && all[0] == d;
    assert (first + log)[..|first|] == first && (first + log)[|first|..] == log;
    assert ServedFirst(d.desc, d.reply, first + log, replies, from, mask, retries);
    hide ServedFirst;
  }

  lemma {:induction false} AccountsStops(descs: seq<Desc>, log: seq<Access>, replies: nat -> Reply, from: nat,
                                         mask: Word, retries: nat)
    requires descs != [] && !descs[0].MaskWord? && Repeats(log, AccessFor(descs[0]))
    requires if descs[0].MaskRead? then log == [] else Fails(descs[0], replies, from, |log|, mask, retries)
    ensures Accounts(descs, [], log, replies, from, mask, retries)
  {
    hide Fails;
    hide AccessFor;
  }

  /** The response never outgrows what the scan asked for. */
  lemma {:induction false} WordsFit(descs: seq<Desc>, replies: nat -> Reply, done: seq<Done>)
    requires |done| <= |descs| && forall i :: 0 <= i < |done| ==> done[i].desc == descs[i]
    requires forall i :: 0 <= i < |descs| && descs[i].ReadWord? ==>
               ReadBytes(descs[i].request) == if HasTimestamp(descs[i].request) then 8 else 4
    ensures |Words(replies, done)| <= Needed(descs)
    decreases |descs|
  {
    if done != [] {
      WordsFit(descs[1..], replies, done[1..]);
    }
  }

  // ---------------------------------------------------------------- the answer

  /** `mask`, `retries` and `port` of the processor, and the accesses made so far. */
  datatype Proc = Proc(mask: Word, retries: nat, port: nat, calls: nat, log: seq<Access>)

  datatype Answered = Answered(bytes: seq<Byte>, proc: Proc)

  function Invalid(capacity: nat): seq<Byte> { if capacity > 0 then [0xFF] else [] }

  // A write at the end is flushed by one more read.
  function Flushed(out: Out, replies: nat -> Reply): Out {
    if out.pending && out.status == TRANSFER_OK
    then out.(status := StatusOf(replies(out.calls)), calls := out.calls + 1, log := out.log + [AccessOf(RDBUFF, 0)])
    else out
  }

  function Answer(s: seq<Byte>, capacity: nat, p: Proc, replies: nat -> Reply): Answered
    requires s != [] ==> s[0] == 0x05
  {
    if |s| < 3 || capacity < 3 || !RequestSize(s).Framed? then Answered(Invalid(capacity), p)
    else
      var descs := Descriptors(s, 3, s[2]);
      if 3 + Needed(descs) > capacity then Answered(Invalid(capacity), p)
      else if p.port != PORT_SWD then Answered([0x05, 0, 0], p)
      else
        var out := Execute(descs, replies, p.retries, p.mask, p.calls, false);
        if out.invalid then
          Answered(Invalid(capacity), p.(mask := out.mask, calls := out.calls, log := p.log + out.log))
        else
          var end := Flushed(out, replies);
          ExecutionIsPrefix(descs, replies, p.retries, p.mask, p.calls, false);
          DescriptorCount(s, 3, s[2]);
          Answered([0x05, |end.done|, end.status] + Words(replies, end.done),
                   p.(mask := end.mask, calls := end.calls, log := p.log + end.log))
  }

  lemma {:induction false} NeededReads(descs: seq<Desc>, s: seq<Byte>, at: nat, n: nat)
    requires TransferSize(s, at, n).Framed? && descs == Descriptors(s, at, n)
    ensures forall i :: 0 <= i < |descs| && descs[i].ReadWord? ==>
              ReadBytes(descs[i].request) == if HasTimestamp(descs[i].request) then 8 else 4
    decreases n
  {
    if n > 0 {
      var rest := Descriptors(s, at + Width(s[at]), n - 1);
      NeededReads(rest, s, at + Width(s[at]), n - 1);
      forall i | 0 <= i < |descs| && descs[i].ReadWord?
        ensures ReadBytes(descs[i].request) == if HasTimestamp(descs[i].request) then 8 else 4
      {
        if i > 0 {
          assert descs[i] == rest[i - 1];
        }
      }
    }
  }

  // Answer and processor tell what was done: how many descriptors, with which status, and the words read.
  predicate Tells(descs: seq<Desc>, a: Answered, p: Proc, replies: nat -> Reply, done: seq<Done>, log: seq<Access>) {
    && |a.bytes| >= 3 && a.bytes[0] == 0x05 && a.bytes[1] == |done| <= |descs| && a.bytes[3..] == Words(replies, done)
    && (forall i :: 0 <= i < |done| ==> done[i].desc == descs[i])
    && InOrder(done, replies, log, p.calls) && Accounts(descs, done, log, replies, p.calls, p.mask, p.retries)
    && if |done| == |descs| && PendingAfter(descs, false)
       then // the last transfer was a write: its outcome is that of one more read
         && a.proc.log == p.log + log + [AccessOf(RDBUFF, 0)] && a.proc.calls == p.calls + |log| + 1
         && a.bytes[2] == StatusOf(replies(p.calls + |log|))
       else
         && a.proc.log == p.log + log && a.proc.calls == p.calls + |log|
         && (|done| == |descs| ==> a.bytes[2] == TRANSFER_OK)
         && (|done| < |descs| ==> |log| > 0 && a.bytes[2] == FailStatus(replies(a.proc.calls - 1)))
  }

  /**
   The answer to a framed DAP_Transfer: it fits the response buffer, and unless it is the one-byte
   error it states how many descriptors completed and the status of the last access, or that there was
   no port, followed in order by exactly the words of the plain reads among those, each the data of a
   successful reply of its own to the access its descriptor names.
   */
  lemma AnswerHoldsReads(s: seq<Byte>, capacity: nat, p: Proc, replies: nat -> Reply)
    requires s != [] ==> s[0] == 0x05
    ensures var a := Answer(s, capacity, p, replies);
            && |a.bytes| <= capacity
            && (a.bytes == Invalid(capacity) ||
                (|s| >= 3 && RequestSize(s).Framed? &&
                 var descs := Descriptors(s, 3, s[2]);
                 && |descs| == s[2]
                 && if p.port != PORT_SWD then a == Answered([0x05, 0, 0], p)
                    else exists done: seq<Done>, log: seq<Access> :: Tells(descs, a, p, replies, done, log)))
  {
    hide Tells;
    if |s| >= 3 && capacity >= 3 && RequestSize(s).Framed? {
      var descs := Descriptors(s, 3, s[2]);
      DescriptorCount(s, 3, s[2]);
      if 3 + Needed(descs) <= capacity && p.port == PORT_SWD {
        ExecutedReads(s, capacity, p, replies, descs);
      }
    }
  }

  lemma ExecutedReads(s: seq<Byte>, capacity: nat, p: Proc, replies: nat -> Reply, descs: seq<Desc>)
    requires |s| >= 3 && s[0] == 0x05 && RequestSize(s).Framed? && descs == Descriptors(s, 3, s[2])
    requires 3 + Needed(descs) <= capacity && p.port == PORT_SWD && |descs| == s[2]
    ensures var a := Answer(s, capacity, p, replies);
            && |a.bytes| <= capacity
            && (a.bytes == Invalid(capacity) ||
                exists done: seq<Done>, log: seq<Access> :: Tells(descs, a, p, replies, done, log))
  {
    hide Execute;
    hide Words;
    hide InOrder;
    hide Accounts;
    hide Descriptors;
    hide Needed;
    hide ReadBytes;
    hide TransferSize;
    hide AccessOf;
    hide FailStatus;
    var out := Execute(descs, replies, p.retries, p.mask, p.calls, false);
    ExecutionIsPrefix(descs, replies, p.retries, p.mask, p.calls, false);
    ExecutionAccounts(descs, replies, p.retries, p.mask, p.calls, false);
    RepliesInOrder(descs, replies, p.retries, p.mask, p.calls, false);
    NeededReads(descs, s, 3, s[2]);
    WordsFit(descs, replies, out.done);
    var a := Answer(s, capacity, p, replies);
    if !out.invalid {
      assert a.bytes[3..] == Words(replies, out.done);
      assert Tells(descs, a, p, replies, out.done, out.log);
    }
  }

  // ---------------------------------------------------------------- on the buffers

  // An execution continued from `done` and `log`.
  function Joined(done: seq<Done>, log: seq<Access>, out: Out): Out {
    out.(done := done + out.done, log := log + out.log)
  }

  lemma {:induction false} WordsAppends(replies: nat -> Reply, done: seq<Done>, d: Done)
    ensures Words(replies, done + [d]) == Words(replies, done) + Encoded(replies, d)
    decreases done
  {
    if done == [] {
      assert done + [d] == [d] && [d][1..] == [];
    } else {
      assert (done + [d])[1..] == done[1..] + [d];
      WordsAppends(replies, done[1..], d);
    }
  }

  // One more descriptor is done.
  lemma JoinedStep(done: seq<Done>, log: seq<Access>, d: Done, more: seq<Access>, rest: Out)
    ensures Joined(done, log, Completed(d, more, rest)) == Joined(done + [d], log + more, rest)
  {
    assert done + ([d] + rest.done) == (done + [d]) + rest.done;
    assert log + (more + rest.log) == (log + more) + rest.log;
  }

  method PutWord(response: array<Byte>, at: nat, w: Word)
    requires at + 4 <= response.Length
    modifies response
    ensures response[at..at + 4] == PutLe32(w)
    ensures response[..at] == old(response[..at]) && response[at + 4..] == old(response[at + 4..])
  {
    var b := PutLe32(w);
    response[at] := b[0];
    response[at + 1] := b[1];
    response[at + 2] := b[2];
    response[at + 3] := b[3];
    assert response[at..at + 4] == b;
  }

  // The word or words a read leaves in the response.
  method PutRead(response: array<Byte>, at: nat, timestamp: bool, w: Word) returns (end: nat)
    requires at + (if timestamp then 8 else 4) <= response.Length
    modifies response
    ensures end == at + (if timestamp then 8 else 4)
    ensures response[..end] == old(response[..at]) + (if timestamp then [0, 0, 0, 0] else []) + PutLe32(w)
  {
    end := at;
    ghost var before := response[..at];
    if timestamp {
      PutWord(response, end, 0);
      end := end + 4;
      assert response[..end] == before + response[at..end];
    }
    ghost var middle := response[..end];
    PutWord(response, end, w);
    assert response[..end + 4] == middle + response[end..end + 4];
    end := end + 4;
  }

  class Processor {
    var matchMask: Word
    var matchRetries: nat
    var port: nat
    // the target: its replies, and how many accesses it has seen
    const replies: nat -> Reply
    var calls: nat
    var log: seq<Access>

    constructor (replies: nat -> Reply)
      ensures View() == Proc(0xFFFF_FFFF, 0, 0, 0, []) && this.replies == replies
    {
      matchMask, matchRetries, port, calls, log := 0xFFFF_FFFF, 0, 0, 0, [];
      this.replies := replies;
    }

    function View(): Proc
      reads this
    {
      Proc(matchMask, matchRetries, port, calls, log)
    }

    method TransferOnce(t: Byte, data: Word) returns (ok: bool, value: Word, status: Byte)
      modifies this
      ensures View() == old(View()).(calls := old(calls) + 1, log := old(log) + [AccessOf(t, data)])
      ensures var r := replies(old(calls)); status == StatusOf(r) && ok == Succeeds(r) && value == r.data
    {
      var r := replies(calls);
      calls := calls + 1;
      log := log + [AccessOf(t, data)];
      value := r.data;
      status := if r.answered then r.status else TRANSFER_ERROR;
      ok := status == TRANSFER_OK;
    }

    method MatchValue(t: Byte, value: Word) returns (matched: bool, status: Byte)
      modifies this
      ensures var m := TryMatch(replies, old(calls), t, value, old(matchMask), old(matchRetries) + 1);
              && matched == m.matched && status == m.status
              && View() == old(View()).(calls := m.calls, log := old(log) + m.log)
    {
      hide And;
      hide AccessOf;
      hide TryMatch;
      matched, status := false, TRANSFER_OK;
      ghost var m := TryMatch(replies, calls, t, value, matchMask, matchRetries + 1);
      var attempt := 0;
      ghost var tried: seq<Access> := [];
      assert tried + m.log == m.log;
      assert log + tried == log;
      while attempt <= matchRetries
        invariant 0 <= attempt <= matchRetries + 1
        invariant status == TRANSFER_OK && !matched
        invariant View() == old(View()).(calls := calls, log := old(log) + tried)
        invariant var rest := TryMatch(replies, calls, t, value, matchMask, matchRetries + 1 - attempt);
                  m == rest.(log := tried + rest.log)
      {
        TryTurn(replies, calls, t, value, matchMask, matchRetries + 1 - attempt, tried, m);
        var ok, actual, answer := TransferOnce(t, 0);
        assert old(log) + tried + [AccessOf(t, 0)] == old(log) + (tried + [AccessOf(t, 0)]);
        tried := tried + [AccessOf(t, 0)];
        status := answer;
        if !ok {
          return;
        }
        if And(actual, matchMask) == And(value, matchMask) {
          matched := true;
          return;
        }
        attempt := attempt + 1;
      }
      NoTurn(replies, calls, t, value, matchMask);
      assert tried + [] == tried;
    }

    // The body of the execution loop: decode the descriptor at `input` and perform it.
    method PerformAt(request: array<Byte>, requestLength: nat, input: nat, wasPending: bool,
                     response: array<Byte>, output: nat)
      returns (ok: bool, status: Byte, pending: bool, invalid: bool, next: nat, end: nat, ghost reply: nat)
      requires requestLength <= request.Length && request != response
      requires input < requestLength && input + Width(request[input]) <= requestLength
      requires output + ReadBytes(request[input]) <= response.Length
      modifies this, response
      ensures request[..] == old(request[..])
      ensures !ok ==> response[..] == old(response[..])
      ensures var d := DescAt(request[..requestLength], input);
              var o := Perform(d, replies, old(matchRetries), old(matchMask), old(calls), wasPending);
              && ok == o.ok && status == o.status && pending == o.pending && invalid == o.invalid && reply == o.reply
              && View() == old(View()).(mask := o.mask, calls := o.calls, log := old(log) + o.log)
              && (ok ==>
                    && next == input + Width(request[input])
                    && end == output + |Encoded(replies, Done(d, reply))|
                    && end <= response.Length
                    && response[..end] == old(response[..output]) + Encoded(replies, Done(d, reply)))
    {
      hide TryMatch;
      hide AccessOf;
      hide IsRead;
      hide IsMatchValue;
      hide IsMatchMask;
      hide HasTimestamp;
      hide GetLe32;
      hide PutLe32;
      ghost var s := request[..requestLength];
      assert forall i :: 0 <= i < requestLength ==> s[i] == request[i];
      var t := request[input];
      next, end := input + 1, output;
      pending, invalid, reply := wasPending, false, calls;
      assert response[..output] + [] == response[..output];
      assert log + [] == log;
      if IsMatchMask(t) {
        status := TRANSFER_OK;
        if IsRead(t) {
          ok, invalid := false, true;
          return;
        }
        matchMask := GetLe32(request[next], request[next + 1], request[next + 2], request[next + 3]);
        next := next + 4;
        ok := true;
        return;
      }
      var data: Word := 0;
      if CarriesWord(t) {
        data := GetLe32(request[next], request[next + 1], request[next + 2], request[next + 3]);
        next := next + 4;
      }
      if IsMatchValue(t) {
        ok, status := MatchValue(t, data);
        reply := if ok then calls - 1 else reply;
        if !ok && status == TRANSFER_OK {
          status := OK_MISMATCH;
        }
        return;
      }
      var value: Word;
      ok, value, status := TransferOnce(t, data);
      if ok {
        pending := !IsRead(t);
        if IsRead(t) {
          end := PutRead(response, output, HasTimestamp(t), value);
        }
      }
    }

    // The execution loop over a request whose framing and response size have been checked.
    method Run(request: array<Byte>, requestLength: nat, response: array<Byte>, capacity: nat)
      returns (output: nat, completed: nat, status: Byte, pending: bool, invalid: bool, consumed: nat)
      requires 3 <= requestLength <= request.Length && 3 <= capacity <= response.Length && request != response
      requires TransferSize(request[..requestLength], 3, request[2]).Framed?
      requires 3 + Needed(Descriptors(request[..requestLength], 3, request[2])) <= capacity
      modifies this, response
      ensures request[..] == old(request[..])
      ensures var out := Execute(Descriptors(request[..requestLength], 3, request[2]), replies, old(matchRetries),
                                 old(matchMask), old(calls), false);
              && invalid == out.invalid
              && View() == old(View()).(mask := out.mask, calls := out.calls, log := old(log) + out.log)
              && (!invalid ==>
                    && completed == |out.done| && status == out.status && pending == out.pending
                    && 3 <= output <= capacity && response[3..output] == Words(replies, out.done))
      ensures consumed <= requestLength
      ensures !invalid && status == TRANSFER_OK ==>
                TransferSize(request[..requestLength], 3, request[2]) == Framed(consumed)
    {
      hide TransferSize;
      hide Descriptors;
      hide Perform;
      hide Encoded;
      hide ReadBytes;
      hide Width;
      hide DescAt;
      hide Execute;
      hide Words;
      hide Needed;
      hide Midway;
      ghost var s := request[..requestLength];
      ghost var descs := Descriptors(s, 3, request[2]);
      ghost var all := Execute(descs, replies, matchRetries, matchMask, calls, false);
      ghost var done: seq<Done> := [];
      ghost var made: seq<Access> := [];
      var input: nat := 3;
      output, completed, status, pending, invalid, consumed := 3, 0, TRANSFER_OK, false, false, 3;
      MidwayStarts(s, request[2], replies, matchRetries, matchMask, calls);
      assert log + made == log;
      NoWords(replies);
      while completed < request[2]
        invariant request[..] == old(request[..]) && request[..requestLength] == s && |descs| == request[2]
        invariant 0 <= completed <= request[2] && status == TRANSFER_OK && !invalid
        invariant Midway(s, descs, all, replies, matchRetries, completed, input, matchMask, calls, pending, done, made)
        invariant View() == old(View()).(mask := matchMask, calls := calls, log := old(log) + made)
        invariant 3 <= output && output + Needed(descs[completed..]) <= capacity && input <= requestLength
        invariant response[3..output] == Words(replies, done)
        decreases request[2] - completed
      {
        ghost var d := descs[completed];
        MidwayTurn(s, descs, all, replies, matchRetries, completed, input, matchMask, calls, pending, done, made);
        ghost var o := Perform(d, replies, matchRetries, matchMask, calls, pending);
        ghost var before := response[..output];
        assert request[input] == s[input];
        var ok, answer, waits, bad, next, end;
        ghost var reply;
        ok, answer, waits, bad, next, end, reply := PerformAt(request, requestLength, input, pending, response, output);
        status, pending, invalid, consumed := answer, waits, bad, input;
        assert old(log) + made + o.log == old(log) + (made + o.log);
        if !ok {
          assert response[3..output] == before[3..];
          return;
        }
        WordsAppends(replies, done, Done(d, reply));
        assert response[3..end] == before[3..] + Encoded(replies, Done(d, reply));
        done, made := done + [Done(d, reply)], made + o.log;
        input, output, completed := next, end, completed + 1;
      }
      MidwayEnds(s, descs, all, replies, matchRetries, completed, input, matchMask, calls, pending, done, made);
      consumed := input;
    }

    /** `process_transfer`: the answer on the response buffer is the one the specification gives. */
    method Process(request: array<Byte>, requestLength: nat, response: array<Byte>, capacity: nat) returns (length: nat)
      requires requestLength <= request.Length && capacity <= response.Length && request != response
      requires requestLength > 0 ==> request[0] == 0x05
      modifies this, response
      ensures length <= capacity
      ensures var a := Answer(old(request[..requestLength]), capacity, old(View()), replies);
              response[..length] == a.bytes && View() == a.proc
    {
      hide Execute;
      hide Descriptors;
      hide Words;
      hide Needed;
      hide TransferSize;
      hide ScanFrom;
      ghost var s := request[..requestLength];
      if requestLength < 3 || capacity < 3 {
        length := PutInvalid(response, capacity);
        return;
      }
      var framed := Measure(request, 0, requestLength);
      assert request[0..0 + requestLength] == s;
      assert s[0] == request[0] && s[2] == request[2];
      if framed == More || framed == Malformed {
        length := PutInvalid(response, capacity);
        return;
      }
      ghost var descs := Descriptors(s, 3, s[2]);
      ScanAgrees(s, 3, 3, s[2]);
      var scan, required := ScanRequest(request, requestLength);
      if required > capacity || scan != framed.length {
        length := PutInvalid(response, capacity);
        return;
      }
      response[0], response[1], response[2] := 0x05, 0, 0;
      if port != PORT_SWD {
        assert response[..3] == [0x05, 0, 0];
        return 3;
      }
      ExecutionIsPrefix(descs, replies, matchRetries, matchMask, calls, false);
      DescriptorCount(s, 3, s[2]);
      ghost var out := Execute(descs, replies, matchRetries, matchMask, calls, false);
      var output, completed, status, pending, invalid, consumed := Run(request, requestLength, response, capacity);
      if invalid {
        length := PutInvalid(response, capacity);
        return;
      }
      ghost var words := response[3..output];
      if pending && status == TRANSFER_OK {
        var _, _, last := TransferOnce(RDBUFF, 0);
        status := last;
        assert old(log) + out.log + [AccessOf(RDBUFF, 0)] == old(log) + (out.log + [AccessOf(RDBUFF, 0)]);
      }
      response[0] := 0x05;
      response[1] := completed;
      response[2] := status;
      length := output;
      assert response[3..output] == words;
      assert response[..output] == [0x05, completed, status] + words;
    }
  }

  method PutInvalid(response: array<Byte>, capacity: nat) returns (length: nat)
    requires capacity <= response.Length
    modifies response
    ensures length <= capacity && response[..length] == Invalid(capacity)
  {
    length := 0;
    if capacity > 0 {
      response[0] := 0xFF;
      length := 1;
    }
  }

  // The prescan reads without looking at the length; on a framed request it never has to.
  method ScanRequest(request: array<Byte>, requestLength: nat) returns (scan: nat, required: nat)
    requires 3 <= requestLength <= request.Length
    requires TransferSize(request[..requestLength], 3, request[2]).Framed?
    ensures ScanFrom(request[..requestLength], 3, 3, request[2]) == Scan(scan, required)
  {
    hide IsRead;
    hide IsMatchValue;
    hide HasTimestamp;
    ghost var s := request[..requestLength];
    required, scan := 3, 3;
    var index := 0;
    ScanAgrees(s, 3, 3, request[2]);
    while index < request[2]
      invariant 0 <= index <= request[2] && 3 <= scan
      invariant TransferSize(s, scan, request[2] - index).Framed?
      invariant ScanFrom(s, scan, required, request[2] - index) == ScanFrom(s, 3, 3, request[2])
    {
      var t := request[scan];
      assert s[scan] == t;
      var read, matchValue := IsRead(t), IsMatchValue(t);
      scan := scan + 1;
      if !read || matchValue {
        scan := scan + 4;
      }
      if read && !matchValue {
        required := required + (if HasTimestamp(t) then 8 else 4);
      }
      index := index + 1;
    }
  }

  lemma NoWords(replies: nat -> Reply)
    ensures Words(replies, []) == []
  {
  }

  lemma NextDescriptor(s: seq<Byte>, at: nat, n: nat)
    requires n > 0 && TransferSize(s, at, n).Framed?
    ensures at < |s| && at + Width(s[at]) <= |s|
    ensures TransferSize(s, at + Width(s[at]), n - 1) == TransferSize(s, at, n)
    ensures var all := Descriptors(s, at, n);
            && all != [] && all[0] == DescAt(s, at) && all[0].request == s[at]
            && all[1..] == Descriptors(s, at + Width(s[at]), n - 1)
  {
    hide IsRead;
    hide IsMatchValue;
    hide IsMatchMask;
  }

  lemma NeededTurn(descs: seq<Desc>)
    requires descs != []
    ensures Needed(descs) == ReadBytes(descs[0].request) + Needed(descs[1..])
  {
  }

  lemma ExecuteTurn(descs: seq<Desc>, replies: nat -> Reply, retries: nat, mask: Word, calls: nat, pending: bool)
    ensures descs == [] ==>
              Execute(descs, replies, retries, mask, calls, pending) ==
                  Out([], TRANSFER_OK, calls, mask, pending, false, [])
    ensures descs != [] ==>
              var o := Perform(descs[0], replies, retries, mask, calls, pending);
              && (o.ok ==> o.status == TRANSFER_OK && !o.invalid)
              && (!o.ok && !o.invalid ==> o.status != TRANSFER_OK)
              && Execute(descs, replies, retries, mask, calls, pending) ==
                 if !o.ok then Out([], o.status, o.calls, o.mask, o.pending, o.invalid, o.log)
                 else Completed(Done(descs[0], o.reply), o.log,
                                Execute(descs[1..], replies, retries, o.mask, o.calls, o.pending))
  {
    if descs != [] {
      PerformFacts(descs[0], replies, retries, mask, calls, pending);
    }
    hide Perform;
  }

  // The loop stands before descriptor `k`, at byte `input`.
  ghost predicate Midway(s: seq<Byte>, descs: seq<Desc>, all: Out, replies: nat -> Reply, retries: nat, k: nat,
                         input: nat,
                   mask: Word, calls: nat, pending: bool, done: seq<Done>, made: seq<Access>) {
    && k <= |descs| && |done| == k
    && TransferSize(s, input, |descs| - k).Framed? && Descriptors(s, input, |descs| - k) == descs[k..]
    && TransferSize(s, input, |descs| - k) == TransferSize(s, 3, |descs|)
    && all == Joined(done, made, Execute(descs[k..], replies, retries, mask, calls, pending))
  }

  lemma MidwayStarts(s: seq<Byte>, n: nat, replies: nat -> Reply, retries: nat, mask: Word, calls: nat)
    requires TransferSize(s, 3, n).Framed?
    ensures var descs := Descriptors(s, 3, n);
            var all := Execute(descs, replies, retries, mask, calls, false);
            && |descs| == n && descs[0..] == descs
            && Midway(s, descs, all, replies, retries, 0, 3, mask, calls, false, [], [])
  {
    hide Execute;
    DescriptorCount(s, 3, n);
    hide Descriptors;
    hide TransferSize;
    var descs := Descriptors(s, 3, n);
    assert descs[0..] == descs;
    var all := Execute(descs, replies, retries, mask, calls, false);
    assert [] + all.done == all.done && [] + all.log == all.log;
  }

  lemma MidwayTurn(s: seq<Byte>, descs: seq<Desc>, all: Out, replies: nat -> Reply, retries: nat, k: nat, input: nat,
                   mask: Word, calls: nat, pending: bool, done: seq<Done>, made: seq<Access>)
    requires Midway(s, descs, all, replies, retries, k, input, mask, calls, pending, done, made) && k < |descs|
    ensures input < |s| && input + Width(s[input]) <= |s| && descs[k] == DescAt(s, input) && |done| == k
    ensures Needed(descs[k..]) == ReadBytes(s[input]) + Needed(descs[k + 1..])
    ensures var o := Perform(descs[k], replies, retries, mask, calls, pending);
            if o.ok then
              && o.status == TRANSFER_OK && !o.invalid
              && |Encoded(replies, Done(descs[k], o.reply))| <= ReadBytes(s[input])
              && Midway(s, descs, all, replies, retries, k + 1, input + Width(s[input]), o.mask, o.calls, o.pending,
                        done + [Done(descs[k], o.reply)], made + o.log)
            else
              && all == Out(done, o.status, o.calls, o.mask, o.pending, o.invalid, made + o.log)
              && (!o.invalid ==> o.status != TRANSFER_OK)
  {
    hide TransferSize;
    hide Descriptors;
    hide Perform;
    hide Width;
    hide DescAt;
    hide Execute;
    hide Needed;
    hide ReadBytes;
    hide Encoded;
    NextDescriptor(s, input, |descs| - k);
    var rest := descs[k..];
    assert rest[0] == descs[k] && rest[1..] == descs[k + 1..];
    NeededTurn(rest);
    ExecuteTurn(rest, replies, retries, mask, calls, pending);
    var o := Perform(descs[k], replies, retries, mask, calls, pending);
    if o.ok {
      EncodedFits(replies, s, input, o.reply);
      JoinedStep(done, made, Done(descs[k], o.reply), o.log,
                 Execute(descs[k + 1..], replies, retries, o.mask, o.calls, o.pending));
    } else {
      assert done + [] == done;
    }
  }

  lemma MidwayEnds(s: seq<Byte>, descs: seq<Desc>, all: Out, replies: nat -> Reply, retries: nat, k: nat, input: nat,
                   mask: Word, calls: nat, pending: bool, done: seq<Done>, made: seq<Access>)
    requires Midway(s, descs, all, replies, retries, k, input, mask, calls, pending, done, made) && k == |descs|
    ensures all == Out(done, TRANSFER_OK, calls, mask, pending, false, made) && |done| == k
    ensures TransferSize(s, 3, |descs|) == Framed(input)
  {
    assert descs[k..] == [];
    assert done + [] == done && made + [] == made;
  }

  // What a descriptor leaves in the response is what the scan counted for it.
  lemma EncodedFits(replies: nat -> Reply, s: seq<Byte>, at: nat, reply: nat)
    requires at < |s| && at + Width(s[at]) <= |s|
    ensures |Encoded(replies, Done(DescAt(s, at), reply))| <= ReadBytes(s[at])
  {
  }

  lemma NoTurn(replies: nat -> Reply, calls: nat, t: Byte, value: Word, mask: Word)
    ensures TryMatch(replies, calls, t, value, mask, 0) == Tried(calls, TRANSFER_OK, false, [])
  {
  }

  // One read of a match, after the accesses `tried`.
  lemma TryTurn(replies: nat -> Reply, calls: nat, t: Byte, value: Word, mask: Word, tries: nat, tried: seq<Access>,
                m: Tried)
    requires tries > 0 &&
             var rest := TryMatch(replies, calls, t, value, mask, tries); m == rest.(log := tried + rest.log)
    ensures var r, more := replies(calls), tried + [AccessOf(t, 0)];
            if !Succeeds(r) then m == Tried(calls + 1, StatusOf(r), false, more)
            else if And(r.data, mask) == And(value, mask) then m == Tried(calls + 1, TRANSFER_OK, true, more)
            else var rest := TryMatch(replies, calls + 1, t, value, mask, tries - 1); m == rest.(log := more + rest.log)
  {
    hide And;
    hide AccessOf;
    var rest := TryMatch(replies, calls + 1, t, value, mask, tries - 1);
    assert tried + ([AccessOf(t, 0)] + rest.log) == tried + [AccessOf(t, 0)] + rest.log;
  }
}
