/**
 * Whole connections: when the code's receive side gives the packets that the byte stream means, and
 * when it does not.
 */
module ReceiverRuns {
  import opened Bytes
  import opened Framing
  import opened Receiver

  /** The session is where the meaning of the stream says it should be. */
  predicate Matches(s: Inbox, t: Stream) {
    s.status == (if t.closed then Closed else Open) && s.packets == t.packets && s.rest == t.rest
  }

  /** The ring position at which the unread bytes start. */
  function Position(t: Stream): nat {
    if t.closed then 0 else |Concat(t.packets)| % MAX_RECV_BUFFER_SIZE
  }

  predicate InStep(s: Inbox, t: Stream) {
    && Matches(s, t)
    && s.read == Position(t)
    && (!t.closed ==> Pending(t.rest))
  }

  /**
   * The condition on a completion, in terms of the stream alone: there is room for the bytes, and
   * the first complete packet does not end before a ring boundary that the stream has reached.
   */
  predicate GoodCompletion(t: Stream, chunk: seq<byte>) {
    t.closed || chunk == [] || (Fits(t.rest, chunk) && !EndsEarly(Position(t), t.rest + chunk))
  }

  lemma StepInStep(s: Inbox, t: Stream, chunk: seq<byte>)
    requires InStep(s, t)
    ensures GoodCompletion(t, chunk) ==> InStep(Accept(s, chunk), Receive(t, chunk))
    ensures !GoodCompletion(t, chunk) ==> !Matches(Accept(s, chunk), Receive(t, chunk))
  {
    if t.closed || chunk == [] {
    } else if Fits(t.rest, chunk) {
      if !EndsEarly(Position(t), t.rest + chunk) {
        GoodStep(s, t, chunk);
      }
    } else {
      LostChunk(s, t, chunk);
    }
  }

  lemma GoodStep(s: Inbox, t: Stream, chunk: seq<byte>)
    requires InStep(s, t) && !t.closed && chunk != []
    requires Fits(t.rest, chunk) && !EndsEarly(Position(t), t.rest + chunk)
    ensures InStep(Accept(s, chunk), Receive(t, chunk))
  {
    assert Accept(s, chunk) == Extracted(s.(rest := t.rest + chunk));
    ExtractedAdvances(t.packets, t.rest + chunk);
  }

  lemma ExtractedAdvances(packets: seq<seq<byte>>, buffered: seq<byte>)
    ensures var a := Assemble(buffered);
            if a.closed then a.rest == []
            else
              && Pending(a.rest)
              && (|Concat(packets)| % MAX_RECV_BUFFER_SIZE + |buffered| - |a.rest|) % MAX_RECV_BUFFER_SIZE
              == |Concat(packets + a.packets)| % MAX_RECV_BUFFER_SIZE
  {
    var a := Assemble(buffered);
    var tail := AssembleSound(buffered);
    ConcatAppend(packets, a.packets);
    PositionAdvance(|Concat(packets)|, |Concat(a.packets)|);
  }

  lemma PositionAdvance(before: nat, n: nat)
    ensures (before % MAX_RECV_BUFFER_SIZE + n) % MAX_RECV_BUFFER_SIZE == (before + n) % MAX_RECV_BUFFER_SIZE
  {
  }

  /** A chunk that is lost is missed, whatever it contained. */
  lemma LostChunk(s: Inbox, t: Stream, chunk: seq<byte>)
    requires InStep(s, t) && !t.closed && chunk != [] && !Fits(t.rest, chunk)
    ensures !Matches(Accept(s, chunk), Receive(t, chunk))
  {
    AssembleStuck(t.rest);
    assert Accept(s, chunk) == Extracted(s);
    assert s.packets + [] == s.packets;
    var buffered := t.rest + chunk;
    var tail := AssembleSound(buffered);
    var a := Assemble(buffered);
    assert t.packets + a.packets == t.packets ==> |a.packets| == 0;
  }

  /** After every completion the session is where it should be. */
  predicate Agrees(chunks: seq<seq<byte>>) {
    && Matches(AcceptAll(chunks), ReceiveAll(chunks))
    && (chunks != [] ==> Agrees(chunks[..|chunks| - 1]))
  }

  predicate AllGood(chunks: seq<seq<byte>>) {
    chunks == [] ||
    (AllGood(chunks[..|chunks| - 1]) &&
     GoodCompletion(ReceiveAll(chunks[..|chunks| - 1]), chunks[|chunks| - 1]))
  }

  /**
   * Exactly when the code is right: it agrees with the meaning of the stream throughout a connection
   * if and only if every completion finds room and reads no packet that ends early.
   */
  lemma {:induction false} AgreesExactlyWhenGood(chunks: seq<seq<byte>>)
    ensures Agrees(chunks) <==> AllGood(chunks)
    ensures AllGood(chunks) ==> InStep(AcceptAll(chunks), ReceiveAll(chunks))
  {
    if chunks == [] {
      assert Concat([]) == [];
    } else {
      var init, last := chunks[..|chunks| - 1], chunks[|chunks| - 1];
      AgreesExactlyWhenGood(init);
      if AllGood(init) {
        StepInStep(AcceptAll(init), ReceiveAll(init), last);
      }
    }
  }

  /** Chunking independence of the code itself, under that condition. */
  lemma GoodChunkingIndependence(c: seq<seq<byte>>, d: seq<seq<byte>>)
    requires AllGood(c) && AllGood(d)
    requires [] !in c && [] !in d && Concat(c) == Concat(d)
    ensures AcceptAll(c) == AcceptAll(d)
  {
    AgreesExactlyWhenGood(c);
    AgreesExactlyWhenGood(d);
    SameBytesSameOutcome(c, d);
  }

  /**
   * What closes a connection on which every completion is good, exactly: the peer's shutdown, or a
   * header with a bad size after whole packets. No id does.
   */
  lemma ConnectionClosesExactly(chunks: seq<seq<byte>>)
    requires AllGood(chunks)
    ensures AcceptAll(chunks).status.Closed?
       <==> [] in chunks || exists packets, tail :: MalformedAfter(packets, tail, Concat(chunks))
  {
    AgreesExactlyWhenGood(chunks);
    ChunkingIndependence(chunks);
    MalformedExactly(Concat(chunks));
  }

  // ----- room -----

  predicate AllAtMost(packets: seq<seq<byte>>, n: nat) {
    forall i :: 0 <= i < |packets| ==> |packets[i]| <= n
  }

  /** A stream of such packets never loses a chunk. */
  lemma SmallPacketsFit(packets: seq<seq<byte>>, chunks: seq<seq<byte>>, chunk: seq<byte>)
    requires AllFramed(packets) && AllAtMost(packets, MAX_RECV_BUFFER_SIZE - MAX_BUFFER_SIZE)
    requires [] !in chunks && Concat(chunks) <= Concat(packets)
    requires |chunk| <= MAX_BUFFER_SIZE
    ensures Fits(ReceiveAll(chunks).rest, chunk)
  {
    ChunkingIndependence(chunks);
    AssemblePrefix(packets, Concat(chunks));
    var tail := AssembleSound(Concat(chunks));
  }

  // ----- one packet at a time -----

  /** No more is buffered than the first packet: the peer waits before it sends the next one. */
  predicate OneAtATime(t: Stream, chunk: seq<byte>) {
    var buffered := t.rest + chunk;
    |buffered| < PACKET_HEADER_SIZE || |buffered| <= AnnouncedSize(buffered)
  }

  lemma OneAtATimeIsGood(t: Stream, chunk: seq<byte>)
    requires OneAtATime(t, chunk) && Fits(t.rest, chunk)
    ensures GoodCompletion(t, chunk)
  {
  }

  // ----- a connection that goes wrong -----

  /** A packet of `n` bytes with a payload of zeros. */
  function ZeroPacket(n: nat): (p: seq<byte>)
    requires GoodSize(n)
    ensures Framed(p) && |p| == n
  {
    [n % 256, n / 256, 1, 0] + seq(n - 4, _ => 0)
  }

  lemma AssembleWhole(packets: seq<seq<byte>>)
    requires AllFramed(packets)
    ensures Assemble(Concat(packets)) == Stream(packets, [], false)
  {
    AssembleComplete(packets, []);
    assert Concat(packets) + [] == Concat(packets);
  }

  lemma StreamTakesWhole(packets: seq<seq<byte>>, p: seq<byte>)
    requires Framed(p)
    ensures Receive(Stream(packets, [], false), p) == Stream(packets + [p], [], false)
  {
    assert [] + p == p && p + [] == p;
    AssembleFirst(p, []);
  }

  /** One more packet, in one completion, while the ring has not come round. */
  lemma NextPacket(chunks: seq<seq<byte>>, packets: seq<seq<byte>>, read: nat, p: seq<byte>)
    requires Framed(p) && read + |p| < MAX_RECV_BUFFER_SIZE
    requires ReceiveAll(chunks) == Stream(packets, [], false)
    requires AcceptAll(chunks) == Inbox(read, [], packets, Open)
    ensures ReceiveAll(chunks + [p]) == Stream(packets + [p], [], false)
    ensures AcceptAll(chunks + [p]) == Inbox(read + |p|, [], packets + [p], Open)
  {
    assert (chunks + [p])[..|chunks|] == chunks;
    TakesWhole(AcceptAll(chunks), p);
    StreamTakesWhole(packets, p);
  }

  /** Two packets that end early in one completion. */
  lemma LastCompletion(chunks: seq<seq<byte>>, packets: seq<seq<byte>>, read: nat, c: seq<byte>)
    requires Framed(c) && 2 * |c| < MAX_RECV_BUFFER_SIZE
    requires read + |c| < MAX_RECV_BUFFER_SIZE <= read + 2 * |c|
    requires ReceiveAll(chunks) == Stream(packets, [], false)
    requires AcceptAll(chunks) == Inbox(read, [], packets, Open)
    ensures ReceiveAll(chunks + [c + c]) == Stream(packets + [c, c], [], false)
    ensures AcceptAll(chunks + [c + c]).status.Undefined?
  {
    assert (chunks + [c + c])[..|chunks|] == chunks;
    assert [] + (c + c) == c + c;
    ConcatTwo(c, c);
    AssembleWhole([c, c]);
    assert EndsEarly(read, c + c);
  }

  /**
   * Three completions of a well-behaved peer after which the code's outcome is undefined: packets of
   * 4096 and 4090 bytes, and then two packets of 4 bytes in one completion, at ring position 8186.
   */
  lemma PipelinedConnection() returns (chunks: seq<seq<byte>>, packets: seq<seq<byte>>)
    ensures AllFramed(packets) && Concat(chunks) == Concat(packets)
    ensures forall i :: 0 <= i < |chunks| ==> 0 < |chunks[i]| <= MAX_BUFFER_SIZE
    ensures ReceiveAll(chunks) == Stream(packets, [], false)
    ensures AcceptAll(chunks).status.Undefined?
  {
    var a, b, c := ZeroPacket(4096), ZeroPacket(4090), ZeroPacket(4);
    NextPacket([], [], 0, a);
    NextPacket([] + [a], [] + [a], 4096, b);
    LastCompletion([] + [a] + [b], [] + [a] + [b], 8186, c);
    chunks, packets := [] + [a] + [b] + [c + c], [] + [a] + [b] + [c, c];
    ConcatAppend([] + [a] + [b], [c + c]);
    ConcatAppend([] + [a] + [b], [c, c]);
    ConcatTwo(c, c);
    ConcatTwo(c + c, c + c);
  }
}
