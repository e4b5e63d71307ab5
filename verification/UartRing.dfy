/**
 The subscriber rings of `firmware/components/target_uart/target_uart.c`: a bounded first-in
 first-out buffer with a saturating count of dropped bytes, and the array that implements it with
 wrap-around copies.
 */
module UartRing {
  import opened Bytes

  const SIZE := 512
  const UINT32_MAX := 0xFFFF_FFFF

  // ---------------------------------------------------------------- the bounded queue

  datatype Fifo = Fifo(contents: seq<Byte>, dropped: nat)

  function Min(a: nat, b: nat): nat { if a < b then a else b }

  const Empty := Fifo([], 0)

  function Room(f: Fifo): nat { if |f.contents| < SIZE then SIZE - |f.contents| else 0 }

  // The longest prefix that fits goes in; the rest is dropped and counted.
  function Publish(f: Fifo, data: seq<Byte>): Fifo {
    var accepted := Min(|data|, Room(f));
    Fifo(f.contents + data[..accepted], Min(f.dropped + (|data| - accepted), UINT32_MAX))
  }

  function Taken(f: Fifo, capacity: nat): seq<Byte> { f.contents[..Min(capacity, |f.contents|)] }

  function Take(f: Fifo, capacity: nat): Fifo { f.(contents := f.contents[Min(capacity, |f.contents|)..]) }

  datatype Op = Published(data: seq<Byte>) | Read(capacity: nat)

  /** A subscription since it was opened: the queue, what was read, what was accepted and how much was lost. */
  datatype Story = Story(fifo: Fifo, read: seq<Byte>, accepted: seq<Byte>, published: nat, lost: nat)

  const Opened := Story(Empty, [], [], 0, 0)

  function Next(s: Story, op: Op): Story {
    match op
    case Published(data) =>
      var accepted := Min(|data|, Room(s.fifo));
      Story(Publish(s.fifo, data), s.read, s.accepted + data[..accepted], s.published + |data|,
            s.lost + (|data| - accepted))
    case Read(capacity) => s.(fifo := Take(s.fifo, capacity), read := s.read + Taken(s.fifo, capacity))
  }

  function Tell(s: Story, ops: seq<Op>): Story
    decreases ops
  {
    if ops == [] then s else Tell(Next(s, ops[0]), ops[1..])
  }

  predicate Conserved(s: Story) {
    && |s.fifo.contents| <= SIZE
    && s.read + s.fifo.contents == s.accepted
    && s.published == |s.accepted| + s.lost
    && s.fifo.dropped == Min(s.lost, UINT32_MAX)
  }

  lemma NextConserves(s: Story, op: Op)
    requires Conserved(s)
    ensures Conserved(Next(s, op))
  {
    match op {
      case Published(data) =>
        var accepted := Min(|data|, Room(s.fifo));
        assert s.read + (s.fifo.contents + data[..accepted]) == s.accepted + data[..accepted];
      case Read(capacity) =>
        var k := Min(capacity, |s.fifo.contents|);
        assert s.fifo.contents == s.fifo.contents[..k] + s.fifo.contents[k..];
        assert s.read + s.fifo.contents[..k] + s.fifo.contents[k..] == s.read + s.fifo.contents;
    }
  }

  /**
   Since its opening, whatever was published and read: bytes read followed by bytes buffered are the
   accepted prefixes in order, published is accepted plus dropped, and the counter shows the true
   number of dropped bytes up to saturation.
   */
  lemma {:induction false} StoryConserves(s: Story, ops: seq<Op>)
    requires Conserved(s)
    ensures Conserved(Tell(s, ops))
    decreases ops
  {
    if ops != [] {
      NextConserves(s, ops[0]);
      StoryConserves(Next(s, ops[0]), ops[1..]);
    }
  }

  // ---------------------------------------------------------------- the ring

  // Where the i-th byte after position `head` lies.
  function At(head: nat, i: nat): nat { if head + i < SIZE then head + i else head + i - SIZE }

  lemma AtIsMod(head: nat, i: nat)
    requires head < SIZE && i <= SIZE
    ensures (head + i) % SIZE == At(head, i) < SIZE
  {
  }

  // Going round from the tail, first the free places, then the bytes already there.
  lemma FromTail(head: nat, count: nat, i: nat)
    requires head < SIZE && count <= SIZE
    ensures i < count ==> At(head, i) == At(At(head, count), SIZE - count + i)
    ensures count <= i < SIZE ==> At(head, i) == At(At(head, count), i - count)
  {
  }

  /** A ring; `story` is its history since it was opened, which every operation keeps conserved. */
  class Slot {
    var session: nat
    var head: nat
    var count: nat
    var dropped: nat
    const buffer: array<Byte>
    ghost var story: Story

    constructor ()
      ensures Valid() && fresh(buffer) && session == 0 && View() == Empty && story == Opened
    {
      session, head, count, dropped, story := 0, 0, 0, 0, Opened;
      buffer := new Byte[SIZE](_ => 0);
    }

    predicate Shape()
      reads this
    {
      buffer.Length == SIZE && head < SIZE && count <= SIZE && dropped <= UINT32_MAX
    }

    ghost predicate Valid()
      reads this, buffer
    {
      Shape() && story.fifo == View() && Conserved(story)
    }

    function Contents(): (s: seq<Byte>)
      requires Shape()
      reads this, buffer
      ensures |s| == count
    {
      seq(count, i requires 0 <= i < count reads this, buffer requires Shape() => buffer[At(head, i)])
    }

    function View(): Fifo
      requires Shape()
      reads this, buffer
    {
      Fifo(Contents(), dropped)
    }

    method Reset(newSession: nat)
      requires Valid()
      modifies this, buffer
      ensures Valid() && View() == Empty && session == newSession && story == Opened
    {
      session, head, count, dropped, story := newSession, 0, 0, 0, Opened;
      forall i | 0 <= i < SIZE {
        buffer[i] := 0;
      }
      assert Contents() == [];
    }

    // The two copies: up to the end of the array, and on from its start.
    method CopyIn(tail: nat, data: seq<Byte>)
      requires Shape() && tail < SIZE && |data| <= SIZE
      modifies buffer
      ensures forall i :: 0 <= i < |data| ==> buffer[At(tail, i)] == data[i]
      ensures forall i :: |data| <= i < SIZE ==> buffer[At(tail, i)] == old(buffer[At(tail, i)])
    {
      var first := if |data| < SIZE - tail then |data| else SIZE - tail;
      forall i | 0 <= i < first {
        buffer[tail + i] := data[i];
      }
      forall i | 0 <= i < |data| - first {
        buffer[i] := data[first + i];
      }
    }

    // The loop body of `airdap_target_uart_publish_rx`.
    method PublishRx(data: seq<Byte>)
      requires Valid()
      modifies this, buffer
      ensures Valid() && session == old(session)
      ensures View() == if session == 0 then old(View()) else Publish(old(View()), data)
      ensures story == if session == 0 then old(story) else Next(old(story), Published(data))
    {
      if session == 0 {
        return;
      }
      NextConserves(story, Published(data));
      Append(data);
      story := Next(story, Published(data));
    }

    method Append(data: seq<Byte>)
      requires Shape()
      modifies `count, `dropped, buffer
      ensures Shape() && View() == Publish(old(View()), data)
    {
      ghost var before := Contents();
      var available := SIZE - count;
      var accepted := if |data| < available then |data| else available;
      var tail := (head + count) % SIZE;
      AtIsMod(head, count);
      CopyIn(tail, data[..accepted]);
      ghost var held := count;
      count := count + accepted;
      var missed := |data| - accepted;
      dropped := if missed >= UINT32_MAX - dropped then UINT32_MAX else dropped + missed;
      forall i | 0 <= i < count
        ensures Contents()[i] == (before + data[..accepted])[i]
      {
        FromTail(head, held, i);
      }
      assert Contents() == before + data[..accepted];
    }

    method ReadInto(data: array<Byte>, capacity: nat) returns (received: nat)
      requires Valid() && capacity <= data.Length && data != buffer
      modifies this, data
      ensures Valid() && session == old(session) && buffer[..] == old(buffer[..])
      ensures received <= capacity && data[..received] == Taken(old(View()), capacity)
      ensures data[received..] == old(data[received..])
      ensures View() == Take(old(View()), capacity)
      ensures story == Next(old(story), Read(capacity)) && story.read == old(story).read + data[..received]
    {
      NextConserves(story, Read(capacity));
      received := Fetch(data, capacity);
      story := Next(story, Read(capacity));
    }

    method Fetch(data: array<Byte>, capacity: nat) returns (received: nat)
      requires Shape() && capacity <= data.Length && data != buffer
      modifies `head, `count, data
      ensures Shape() && buffer[..] == old(buffer[..])
      ensures received <= capacity && data[..received] == Taken(old(View()), capacity)
      ensures data[received..] == old(data[received..])
      ensures View() == Take(old(View()), capacity)
    {
      ghost var before := Contents();
      received := if capacity < count then capacity else count;
      var first := if received < SIZE - head then received else SIZE - head;
      forall i | 0 <= i < first {
        data[i] := buffer[head + i];
      }
      forall i | first <= i < received {
        data[i] := buffer[i - first];
      }
      assert forall i :: 0 <= i < received ==> data[i] == before[i];
      assert data[..received] == before[..received];
      ghost var was := head;
      AtIsMod(head, received);
      head := (head + received) % SIZE;
      count := count - received;
      forall i | 0 <= i < count
        ensures Contents()[i] == before[received..][i]
      {
        assert At(head, i) == At(was, received + i);
      }
      assert Contents() == before[received..];
    }
  }

  // What publishing adds to the history of a subscription.
  predicate Followed(session: nat, data: seq<Byte>, before: Story, after: Story) {
    after == if data == [] || session == 0 then before else Next(before, Published(data))
  }

  /** `airdap_target_uart_publish_rx`: every live subscription gets its own prefix. */
  method PublishAll(usb: Slot, network: Slot, data: seq<Byte>)
    requires usb.Valid() && network.Valid() && usb != network && usb.buffer != network.buffer
    modifies usb, network, usb.buffer, network.buffer
    ensures usb.Valid() && network.Valid()
    ensures usb.session == old(usb.session) && network.session == old(network.session)
    ensures usb.View() == if data == [] || usb.session == 0 then old(usb.View()) else Publish(old(usb.View()), data)
    ensures network.View() ==
            if data == [] || network.session == 0 then old(network.View()) else Publish(old(network.View()), data)
    ensures Followed(usb.session, data, old(usb.story), usb.story)
    ensures Followed(network.session, data, old(network.story), network.story)
  {
    if |data| == 0 {
      return;
    }
    usb.PublishRx(data);
    network.PublishRx(data);
  }
}
