/**
 The re-framer of `firmware/components/usb_device/dap_stream.c`: chunks of any size go into a
 512-byte buffer, complete requests are handed to a callback, and what is left waits for more.
 */
module DapStream {
  import opened Bytes
  import opened DapRequest

  const BUFFER_SIZE := 512
  const TIMEOUT_US := 250_000

  // ---------------------------------------------------------------- framing a whole input

  /** The requests at the front of an input, what follows them, and whether that can never be framed. */
  datatype Frames = Frames(requests: seq<seq<Byte>>, rest: seq<Byte>, malformed: bool)

  predicate Usable(size: Size) { size.Framed? && 0 < size.length <= PACKET_SIZE }

  function Split(s: seq<Byte>): Frames
    decreases |s|
  {
    var size := RequestSize(s);
    if Usable(size) && size.length <= |s| then
      var tail := Split(s[size.length..]);
      tail.(requests := [s[..size.length]] + tail.requests)
    else Frames([], s, size != More)
  }

  function Flat(parts: seq<seq<Byte>>): seq<Byte> {
    if parts == [] then [] else parts[0] + Flat(parts[1..])
  }

  lemma {:induction false} FlatConcat(a: seq<seq<Byte>>, b: seq<seq<Byte>>)
    ensures Flat(a + b) == Flat(a) + Flat(b)
    decreases a
  {
    if a == [] {
      assert a + b == b;
    } else {
      assert (a + b)[1..] == a[1..] + b;
      FlatConcat(a[1..], b);
    }
  }

  lemma FlatCons(first: seq<Byte>, requests: seq<seq<Byte>>, rest: seq<Byte>)
    ensures Flat([first] + requests) + rest == first + (Flat(requests) + rest)
  {
    assert ([first] + requests)[1..] == requests;
  }

  lemma {:induction false} SplitFlat(s: seq<Byte>)
    ensures Flat(Split(s).requests) + Split(s).rest == s
    decreases |s|
  {
    hide RequestSize;
    var size := RequestSize(s);
    if size.Framed? {
      SizeExact(s, 0);
    }
    if Usable(size) {
      var n := size.length;
      SplitFlat(s[n..]);
      FlatCons(s[..n], Split(s[n..]).requests, Split(s[n..]).rest);
      hide Flat;
      assert s == s[..n] + s[n..];
    }
  }

  /** Requests and rest are exactly the input, each request is framed by itself, and the rest is not. */
  lemma {:induction false} SplitSpells(s: seq<Byte>)
    ensures var f := Split(s);
            && Flat(f.requests) + f.rest == s
            && (forall i :: 0 <= i < |f.requests| ==> RequestSize(f.requests[i]) == Framed(|f.requests[i]|))
            && (forall i :: 0 <= i < |f.requests| ==> 0 < |f.requests[i]| <= PACKET_SIZE)
            && !Usable(RequestSize(f.rest)) && f.malformed == (RequestSize(f.rest) != More)
    decreases |s|
  {
    hide RequestSize;
    SplitFlat(s);
    hide Flat;
    var size := RequestSize(s);
    if size.Framed? {
      SizeExact(s, 0);
    }
    if Usable(size) {
      var n := size.length;
      SplitSpells(s[n..]);
      var tail := Split(s[n..]);
      var all := [s[..n]] + tail.requests;
      forall i | 0 <= i < |all|
        ensures RequestSize(all[i]) == Framed(|all[i]|) && 0 < |all[i]| <= PACKET_SIZE
      {
        if i > 0 {
          assert all[i] == tail.requests[i - 1];
        }
      }
    }
  }

  /** Framing goes on where it stopped: more input only continues the rest. */
  lemma {:induction false} SplitContinues(s: seq<Byte>, t: seq<Byte>)
    requires !Split(s).malformed
    ensures Split(s + t) == Split(Split(s).rest + t).(requests := Split(s).requests + Split(Split(s).rest + t).requests)
    decreases |s|
  {
    hide RequestSize;
    var size := RequestSize(s);
    if size.Framed? {
      SizeExact(s, 0);
    }
    if Usable(size) {
      var n := size.length;
      SizeStable(s, s + t);
      assert (s + t)[..n] == s[..n] && (s + t)[n..] == s[n..] + t;
      SplitContinues(s[n..], t);
      var f, g := Split(s[n..]), Split(Split(s[n..]).rest + t);
      assert [s[..n]] + (f.requests + g.requests) == ([s[..n]] + f.requests) + g.requests;
    } else {
      assert Split(s) == Frames([], s, false);
      var g := Split(s + t);
      assert [] + g.requests == g.requests;
    }
  }

  // ---------------------------------------------------------------- feeding chunk by chunk

  datatype Verdict = Ok | Overflow | IsMalformed

  /** What the stream holds, and everything it has handed out. */
  datatype Stream = Stream(rest: seq<Byte>, delivered: seq<seq<Byte>>)

  datatype Fed = Fed(stream: Stream, verdict: Verdict)

  function Feed(st: Stream, chunk: seq<Byte>): Fed {
    if |st.rest| + |chunk| > BUFFER_SIZE then Fed(st.(rest := []), Overflow)
    else
      var f := Split(st.rest + chunk);
      if f.malformed then Fed(Stream([], st.delivered + f.requests), IsMalformed)
      else Fed(Stream(f.rest, st.delivered + f.requests), Ok)
  }

  // The stream after feeding all chunks, as long as each is taken.
  function FeedAll(st: Stream, chunks: seq<seq<Byte>>): Fed
    decreases chunks
  {
    if chunks == [] then Fed(st, Ok)
    else
      var first := Feed(st, chunks[0]);
      if first.verdict != Ok then first else FeedAll(first.stream, chunks[1..])
  }

  lemma {:induction false} FeedingFollowsSplit(st: Stream, chunks: seq<seq<Byte>>)
    requires FeedAll(st, chunks).verdict == Ok && Split(st.rest) == Frames([], st.rest, false)
    ensures var input, end := st.rest + Flat(chunks), FeedAll(st, chunks).stream;
            && !Split(input).malformed && end.rest == Split(input).rest
            && end.delivered == st.delivered + Split(input).requests
    decreases chunks
  {
    hide RequestSize;
    hide Split;
    if chunks == [] {
      assert st.rest + Flat(chunks) == st.rest;
      assert st.delivered + [] == st.delivered;
    } else {
      var joined, later := st.rest + chunks[0], Flat(chunks[1..]);
      var f := Split(joined);
      SplitSpells(joined);
      RestIsSettled(f.rest);
      FeedingFollowsSplit(Stream(f.rest, st.delivered + f.requests), chunks[1..]);
      SplitContinues(joined, later);
      assert joined + later == st.rest + Flat(chunks);
      var g := Split(f.rest + later);
      assert (st.delivered + f.requests) + g.requests == st.delivered + (f.requests + g.requests);
    }
  }

  /**
   Framing does not depend on chunking: for any split of the input whose feeds all return OK, the
   requests delivered and the bytes left are those of framing the whole input at once, and together
   they are exactly the input.
   */
  lemma ChunksDoNotMatter(chunks: seq<seq<Byte>>)
    requires FeedAll(Stream([], []), chunks).verdict == Ok
    ensures var input, end := Flat(chunks), FeedAll(Stream([], []), chunks).stream;
            && end.rest == Split(input).rest && end.delivered == Split(input).requests && !Split(input).malformed
            && Flat(end.delivered) + end.rest == input
  {
    hide RequestSize;
    EmptyNeedsMore();
    RestIsSettled([]);
    hide Split;
    FeedingFollowsSplit(Stream([], []), chunks);
    assert [] + Flat(chunks) == Flat(chunks);
    SplitSpells(Flat(chunks));
    assert [] + Split(Flat(chunks)).requests == Split(Flat(chunks)).requests;
  }

  lemma {:induction false} MalformedStays(s: seq<Byte>, t: seq<Byte>)
    requires Split(s).malformed
    ensures Split(s + t).malformed && Split(s + t).requests == Split(s).requests
    decreases |s|
  {
    hide RequestSize;
    var size := RequestSize(s);
    SizeStable(s, s + t);
    if size.Framed? {
      SizeExact(s, 0);
    }
    if Usable(size) {
      var n := size.length;
      assert (s + t)[..n] == s[..n] && (s + t)[n..] == s[n..] + t;
      MalformedStays(s[n..], t);
    }
  }

  /**
   A malformed verdict does not depend on chunking either: it is given exactly when framing the whole
   input fails, after the same requests have been delivered.
   */
  lemma {:induction false} MalformedIsIntrinsic(st: Stream, chunks: seq<seq<Byte>>)
    requires FeedAll(st, chunks).verdict != Overflow && Split(st.rest) == Frames([], st.rest, false)
    ensures var input, end := st.rest + Flat(chunks), FeedAll(st, chunks);
            && (end.verdict == IsMalformed <==> Split(input).malformed)
            && end.stream.delivered == st.delivered + Split(input).requests
    decreases chunks
  {
    hide RequestSize;
    hide Split;
    if FeedAll(st, chunks).verdict == Ok {
      FeedingFollowsSplit(st, chunks);
    } else {
      var joined, later := st.rest + chunks[0], Flat(chunks[1..]);
      var f := Split(joined);
      assert joined + later == st.rest + Flat(chunks);
      if f.malformed {
        MalformedStays(joined, later);
      } else {
        SplitSpells(joined);
        RestIsSettled(f.rest);
        MalformedIsIntrinsic(Stream(f.rest, st.delivered + f.requests), chunks[1..]);
        SplitContinues(joined, later);
        var g := Split(f.rest + later);
        assert (st.delivered + f.requests) + g.requests == st.delivered + (f.requests + g.requests);
      }
    }
  }

  lemma EmptyNeedsMore()
    ensures RequestSize([]) == More
  {
  }

  // One request at the front, or the end of framing.
  lemma SplitTurn(s: seq<Byte>)
    ensures var size := RequestSize(s);
            if Usable(size) then
              && size.length <= |s|
              && Split(s) == Split(s[size.length..]).(requests := [s[..size.length]] + Split(s[size.length..]).requests)
            else Split(s) == Frames([], s, size != More)
  {
    if RequestSize(s).Framed? {
      SizeExact(s, 0);
    }
    hide RequestSize;
  }

  lemma RestIsSettled(rest: seq<Byte>)
    requires RequestSize(rest) == More
    ensures Split(rest) == Frames([], rest, false)
  {
    hide RequestSize;
  }

  // ---------------------------------------------------------------- the buffer

  class Buffer {
    var length: nat
    var lastActivity: int
    const data: array<Byte>
    // the requests passed to the callback so far
    var delivered: seq<seq<Byte>>

    constructor ()
      ensures Valid() && fresh(data) && View() == Stream([], []) && lastActivity == 0
    {
      length, lastActivity, delivered := 0, 0, [];
      data := new Byte[BUFFER_SIZE](_ => 0);
    }

    predicate Valid()
      reads this
    {
      data.Length == BUFFER_SIZE && length <= BUFFER_SIZE
    }

    function View(): Stream
      requires Valid()
      reads this, data
    {
      Stream(data[..length], delivered)
    }

    method Reset()
      requires Valid()
      modifies this, data
      ensures Valid() && View() == Stream([], old(delivered)) && lastActivity == 0
    {
      length, lastActivity := 0, 0;
      forall i | 0 <= i < BUFFER_SIZE {
        data[i] := 0;
      }
    }

    method Expire(now: int) returns (expired: bool)
      requires Valid()
      modifies this, data
      ensures Valid()
      ensures expired == (old(length) > 0 && now >= old(lastActivity) && now - old(lastActivity) >= TIMEOUT_US)
      ensures if expired then View() == Stream([], old(delivered)) && lastActivity == 0
              else View() == old(View()) && lastActivity == old(lastActivity)
    {
      if length == 0 || now < lastActivity || now - lastActivity < TIMEOUT_US {
        return false;
      }
      Reset();
      return true;
    }

    // Hand out the complete requests at the front; stop at `offset`.
    method Consume() returns (offset: nat, malformed: bool)
      requires Valid()
      modifies this`delivered
      ensures Valid() && offset <= length
      ensures var f := Split(data[..length]);
              && malformed == f.malformed && delivered == old(delivered) + f.requests
              && data[offset..length] == f.rest
    {
      hide RequestSize;
      hide Split;
      offset, malformed := 0, false;
      ghost var all := Split(data[..length]);
      ghost var done: seq<seq<Byte>> := [];
      assert data[..length] == data[0..length];
      assert done + all.requests == all.requests;
      while offset < length
        invariant 0 <= offset <= length
        invariant delivered == old(delivered) + done
        invariant var f := Split(data[offset..length]);
                  all == f.(requests := done + f.requests)
        decreases length - offset
      {
        ghost var rest := data[offset..length];
        SplitTurn(rest);
        var size := Measure(data, offset, length - offset);
        assert data[offset..offset + (length - offset)] == rest;
        if size.Framed? {
          SizeExact(rest, 0);
        }
        if size == More {
          assert done + [] == done;
          return;
        }
        if size == Malformed || size.length > PACKET_SIZE {
          malformed := true;
          assert done + [] == done;
          return;
        }
        var request := data[offset..offset + size.length];
        assert rest[..size.length] == request && rest[size.length..] == data[offset + size.length..length];
        ghost var tail := Split(rest[size.length..]).requests;
        assert done + ([request] + tail) == (done + [request]) + tail;
        delivered := delivered + [request];
        done := done + [request];
        offset := offset + size.length;
      }
      assert data[offset..length] == [];
      EmptyNeedsMore();
      SplitTurn([]);
      assert done + [] == done;
    }

    method FeedChunk(chunk: seq<Byte>, now: int) returns (verdict: Verdict)
      requires Valid()
      modifies this, data
      ensures Valid() && Fed(View(), verdict) == Feed(old(View()), chunk)
      ensures lastActivity == if verdict == Ok && length > 0 then now else 0
    {
      hide RequestSize;
      hide Split;
      if |chunk| > BUFFER_SIZE - length {
        Reset();
        return Overflow;
      }
      ghost var before := data[..length];
      forall i | 0 <= i < |chunk| {
        data[length + i] := chunk[i];
      }
      length := length + |chunk|;
      assert data[..length] == before + chunk;
      var offset, malformed := Consume();
      if malformed {
        Reset();
        return IsMalformed;
      }
      if offset > 0 {
        ghost var rest := data[offset..length];
        length := length - offset;
        forall i | 0 <= i < length {
          data[i] := data[offset + i];
        }
        assert data[..length] == rest;
      }
      assert offset == 0 ==> data[..length] == data[offset..length];
      lastActivity := if length > 0 then now else 0;
      return Ok;
    }
  }
}
