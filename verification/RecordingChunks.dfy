/** How a HomeKit Secure Video recording is cut into DATA events, and a receiver that puts it together again. */
module RecordingChunks {
  import opened Wrappers

  newtype byte = x: int | 0 <= x < 256

  const MAX_CHUNK := 0x40000

  datatype DataType = MediaInitialization | MediaFragment

  datatype Packet = Packet(data: seq<byte>, isLast: bool)

  datatype DataEvent = DataEvent(
    data: seq<byte>,
    dataType: DataType,
    sequenceNumber: nat,
    chunkNumber: nat,
    isLastChunk: bool,
    totalSize: Option<nat>,
    endOfStream: Option<bool>)

  // ---------------------------------------------------------------- sending

  function ChunkCount(size: nat): nat {
    (size + MAX_CHUNK - 1) / MAX_CHUNK
  }

  function ChunkEnd(size: nat, k: nat): nat {
    if (k + 1) * MAX_CHUNK < size then (k + 1) * MAX_CHUNK else size
  }

  /** Chunk `k`, counted from zero, of a packet. */
  function Chunk(packet: Packet, sequenceNumber: nat, initialization: bool, k: nat): DataEvent
    requires k < ChunkCount(|packet.data|)
  {
    var size := |packet.data|;
    var last := k + 1 == ChunkCount(size);
    DataEvent(packet.data[k * MAX_CHUNK..ChunkEnd(size, k)],
              if initialization && k == 0 then MediaInitialization else MediaFragment,
              sequenceNumber, k + 1, last,
              if k == 0 then Some(size) else None,
              if last then Some(packet.isLast) else None)
  }

  function Chunks(packet: Packet, sequenceNumber: nat, initialization: bool): seq<DataEvent> {
    seq(ChunkCount(|packet.data|),
        k requires 0 <= k < ChunkCount(|packet.data|) => Chunk(packet, sequenceNumber, initialization, k))
  }

  /** The inner loop of `_startStreaming`: one packet becomes a run of events. Only the very first event of a stream
      is tagged as initialization, even when the first packet needs several. */
  method SendPacket(packet: Packet, sequenceNumber: nat, initialization: bool)
    returns (events: seq<DataEvent>, stillInitial: bool)
    ensures events == Chunks(packet, sequenceNumber, initialization)
    ensures stillInitial <==> initialization && packet.data == []
  {
    var fragment := packet.data;
    var offset, chunkNumber := 0, 1;
    stillInitial := initialization;
    events := [];
    while offset < |fragment|
      invariant 0 <= offset <= |fragment|
      invariant chunkNumber == |events| + 1
      invariant offset == if |events| * MAX_CHUNK < |fragment| then |events| * MAX_CHUNK else |fragment|
      invariant |events| <= ChunkCount(|fragment|)
      invariant stillInitial <==> initialization && events == []
      invariant forall k :: 0 <= k < |events| ==> events[k] == Chunk(packet, sequenceNumber, initialization, k)
      decreases |fragment| - offset
    {
      var end := if offset + MAX_CHUNK < |fragment| then offset + MAX_CHUNK else |fragment|;
      var data := fragment[offset..end];
      offset := offset + |data|;
      var event := DataEvent(data,
                             if stillInitial then MediaInitialization else MediaFragment,
                             sequenceNumber, chunkNumber,
                             offset >= |fragment|,
                             if chunkNumber == 1 then Some(|fragment|) else None,
                             if offset >= |fragment| then Some(packet.isLast) else None);
      events := events + [event];
      chunkNumber := chunkNumber + 1;
      stillInitial := false;
    }
  }

  /** All events for a list of packets: packet `k` carries the sequence number `k + 1`, and the first event of all is
      the initialization. */
  ghost function Sent(packets: seq<Packet>): seq<DataEvent> {
    if packets == [] then []
    else
      var before := Sent(packets[..|packets| - 1]);
      before + Chunks(packets[|packets| - 1], |packets|, before == [])
  }

  /** The packets taken from a generator: everything up to the first one marked last. */
  ghost function Taken(packets: seq<Packet>): seq<Packet> {
    if packets == [] then []
    else
      var before := Taken(packets[..|packets| - 1]);
      if |before| < |packets| - 1 || (before != [] && before[|before| - 1].isLast) then before else packets
  }

  /** The outer loop of `_startStreaming` on an open stream whose connection keeps working. */
  method SendAll(packets: seq<Packet>) returns (events: seq<DataEvent>)
    ensures events == Sent(Taken(packets))
  {
    events := [];
    var initialization, sequenceNumber, lastFragmentWasMarkedLast := true, 1, false;
    var n := 0;
    while n < |packets|
      invariant 0 <= n <= |packets|
      invariant !lastFragmentWasMarkedLast && sequenceNumber == n + 1
      invariant Taken(packets[..n]) == packets[..n]
      invariant forall k :: 0 <= k < n ==> !packets[k].isLast
      invariant events == Sent(packets[..n]) && (initialization <==> events == [])
    {
      assert packets[..n + 1][..n] == packets[..n];
      var packet := packets[n];
      var chunks;
      chunks, initialization := SendPacket(packet, sequenceNumber, initialization);
      events := events + chunks;
      lastFragmentWasMarkedLast := packet.isLast;
      if packet.isLast {
        TakenStops(packets, n + 1);
        return;
      }
      sequenceNumber := sequenceNumber + 1;
      n := n + 1;
    }
    assert packets[..n] == packets;
  }

  lemma {:induction false} TakenStops(packets: seq<Packet>, n: nat)
    requires 0 < n <= |packets| && Taken(packets[..n]) == packets[..n] && packets[n - 1].isLast
    ensures Taken(packets) == packets[..n]
    decreases |packets|
  {
    if n < |packets| {
      assert packets[..|packets| - 1][..n] == packets[..n];
      TakenStops(packets[..|packets| - 1], n);
    } else {
      assert packets[..n] == packets;
    }
  }

  // ---------------------------------------------------------------- receiving

  /** A receiver that takes nothing on trust: packets complete so far, the bytes and the number of chunks of the packet
      under way, its announced size, and whether the end of the stream was announced. */
  datatype Receiver = Receiver(complete: seq<seq<byte>>, partial: seq<byte>, chunks: nat, announced: nat, ended: bool)

  const NOTHING_RECEIVED := Receiver([], [], 0, 0, false)

  function Accept(r: Receiver, e: DataEvent): Option<Receiver> {
    var first := r.chunks == 0;
    if && !r.ended
       && e.sequenceNumber == |r.complete| + 1
       && e.chunkNumber == r.chunks + 1
       && 1 <= |e.data| <= MAX_CHUNK
       && (e.dataType.MediaInitialization? <==> r.complete == [] && first)
       && (e.totalSize.Some? <==> first)
       && (e.endOfStream.Some? <==> e.isLastChunk)
    then
      var announced := if first then e.totalSize.value else r.announced;
      var partial := r.partial + e.data;
      if e.isLastChunk && |partial| == announced then
        Some(Receiver(r.complete + [partial], [], 0, 0, e.endOfStream.value))
      else if !e.isLastChunk && |partial| < announced then
        Some(r.(partial := partial, chunks := r.chunks + 1, announced := announced))
      else None
    else None
  }

  function Receive(r: Receiver, events: seq<DataEvent>): Option<Receiver> {
    if events == [] then Some(r)
    else
      match Receive(r, events[..|events| - 1])
      case Some(r') => Accept(r', events[|events| - 1])
      case None => None
  }

  lemma {:induction false} ReceiveAppend(r: Receiver, a: seq<DataEvent>, b: seq<DataEvent>)
    ensures Receive(r, a + b) == match Receive(r, a) case Some(r') => Receive(r', b) case None => None
    decreases |b|
  {
    if b == [] {
      assert a + b == a;
    } else {
      assert (a + b)[..|a + b| - 1] == a + b[..|b| - 1];
      ReceiveAppend(r, a, b[..|b| - 1]);
    }
  }

  ghost function Payloads(packets: seq<Packet>): seq<seq<byte>> {
    seq(|packets|, k requires 0 <= k < |packets| => packets[k].data)
  }

  ghost predicate NonEmpty(packets: seq<Packet>) {
    forall k :: 0 <= k < |packets| ==> packets[k].data != []
  }

  /** Only the final packet may be marked last. */
  ghost predicate OnlyFinalIsLast(packets: seq<Packet>) {
    forall k :: 0 <= k < |packets| - 1 ==> !packets[k].isLast
  }

  lemma {:induction false} ChunksReceived(r: Receiver, packet: Packet, n: nat)
    requires packet.data != [] && n < ChunkCount(|packet.data|)
    requires r.partial == [] && r.chunks == 0 && r.announced == 0 && !r.ended
    ensures var size := |packet.data|;
      var chunks := Chunks(packet, |r.complete| + 1, r.complete == []);
      Receive(r, chunks[..n])
        == Some(r.(partial := packet.data[..n * MAX_CHUNK], chunks := n, announced := if n == 0 then 0 else size))
  {
    var chunks := Chunks(packet, |r.complete| + 1, r.complete == []);
    if n > 0 {
      ChunksReceived(r, packet, n - 1);
      assert chunks[..n][..n - 1] == chunks[..n - 1];
      assert packet.data[..(n - 1) * MAX_CHUNK] + packet.data[(n - 1) * MAX_CHUNK..n * MAX_CHUNK]
        == packet.data[..n * MAX_CHUNK];
    }
  }

  lemma LastChunkReceived(r: Receiver, packet: Packet)
    requires packet.data != []
    requires r.partial == [] && r.chunks == 0 && r.announced == 0 && !r.ended
    ensures var (n, size) := (ChunkCount(|packet.data|) - 1, |packet.data|);
      Accept(r.(partial := packet.data[..n * MAX_CHUNK], chunks := n, announced := if n == 0 then 0 else size),
             Chunk(packet, |r.complete| + 1, r.complete == [], n))
        == Some(r.(complete := r.complete + [packet.data], ended := packet.isLast))
  {
    var n := ChunkCount(|packet.data|) - 1;
    assert ChunkEnd(|packet.data|, n) == |packet.data|;
    assert packet.data[..n * MAX_CHUNK] + packet.data[n * MAX_CHUNK..|packet.data|] == packet.data;
  }

  /** One packet with data is received whole. */
  lemma PacketReceived(r: Receiver, packet: Packet)
    requires packet.data != []
    requires r.partial == [] && r.chunks == 0 && r.announced == 0 && !r.ended
    ensures Receive(r, Chunks(packet, |r.complete| + 1, r.complete == []))
         == Some(r.(complete := r.complete + [packet.data], ended := packet.isLast))
  {
    var n := ChunkCount(|packet.data|) - 1;
    var chunks := Chunks(packet, |r.complete| + 1, r.complete == []);
    ChunksReceived(r, packet, n);
    LastChunkReceived(r, packet);
    assert chunks[..|chunks| - 1] == chunks[..n];
  }

  ghost function Ended(packets: seq<Packet>): bool {
    packets != [] && packets[|packets| - 1].isLast
  }

  ghost function ReceivedAll(packets: seq<Packet>): Receiver {
    Receiver(Payloads(packets), [], 0, 0, Ended(packets))
  }

  lemma {:induction false} SentIsEmptyIff(packets: seq<Packet>)
    requires NonEmpty(packets)
    ensures Sent(packets) == [] <==> packets == []
  {
  }

  lemma PayloadsOfAll(packets: seq<Packet>)
    requires packets != []
    ensures Payloads(packets) == Payloads(packets[..|packets| - 1]) + [packets[|packets| - 1].data]
  {
  }

  /** Cutting and reassembling undo each other. */
  lemma {:induction false} RoundTrip(packets: seq<Packet>)
    requires OnlyFinalIsLast(packets) && NonEmpty(packets)
    ensures Receive(NOTHING_RECEIVED, Sent(packets)) == Some(ReceivedAll(packets))
  {
    if packets == [] {
      assert Payloads([]) == [];
    } else {
      var init, last := packets[..|packets| - 1], packets[|packets| - 1];
      RoundTrip(init);
      SentIsEmptyIff(init);
      var r := ReceivedAll(init);
      var chunks := Chunks(last, |r.complete| + 1, r.complete == []);
      assert Sent(packets) == Sent(init) + chunks;
      PacketReceived(r, last);
      ReceiveAppend(NOTHING_RECEIVED, Sent(init), chunks);
      PayloadsOfAll(packets);
    }
  }

  lemma {:induction false} ReceivedIsNonEmpty(events: seq<DataEvent>)
    ensures var received := Receive(NOTHING_RECEIVED, events);
      received.Some? ==> forall k :: 0 <= k < |received.value.complete| ==> |received.value.complete[k]| >= 1
  {
    if events != [] && Receive(NOTHING_RECEIVED, events).Some? {
      var init, e := events[..|events| - 1], events[|events| - 1];
      ReceivedIsNonEmpty(init);
      var r := Receive(NOTHING_RECEIVED, init).value;
      assert Receive(NOTHING_RECEIVED, events) == Accept(r, e);
    }
  }

  /** Whatever a generator yields, the receiver ends up with exactly the packets taken from it if and only if none of
      them is empty: an empty packet sends no event but uses up a sequence number. */
  lemma ReceivedExactlyIff(packets: seq<Packet>)
    ensures var taken := Taken(packets);
      Receive(NOTHING_RECEIVED, Sent(taken)) == Some(ReceivedAll(taken)) <==> NonEmpty(taken)
  {
    var taken := Taken(packets);
    TakenIsPrefix(packets);
    if NonEmpty(taken) {
      RoundTrip(taken);
    } else {
      ReceivedIsNonEmpty(Sent(taken));
      var k :| 0 <= k < |taken| && taken[k].data == [];
      assert Payloads(taken)[k] == [];
    }
  }

  lemma {:induction false} TakenIsPrefix(packets: seq<Packet>)
    ensures Taken(packets) <= packets && OnlyFinalIsLast(Taken(packets))
  {
    if packets != [] {
      var init := packets[..|packets| - 1];
      TakenIsPrefix(init);
      if Taken(packets) == packets {
        assert Taken(init) == init;
        forall k | 0 <= k < |packets| - 1 ensures !packets[k].isLast {
          assert packets[k] == init[k];
        }
      }
    }
  }
}
