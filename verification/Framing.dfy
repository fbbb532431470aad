/**
 * The packet stream, independent of any buffer: what a byte stream means as a list of packets.
 * A packet starts with a 4-byte header, size then id, both 16-bit little-endian; the size counts
 * the header. `Assemble` is what the extraction loop of ClientSession::OnRecvCompleted computes
 * on everything that is buffered.
 */
module Framing {
  import opened Bytes

  const PACKET_HEADER_SIZE: nat := 4
  const MAX_RECV_BUFFER_SIZE: nat := 8192

  function AnnouncedSize(buffer: seq<byte>): nat
    requires |buffer| >= PACKET_HEADER_SIZE
  {
    Word(buffer, 0)
  }

  function PacketId(packet: seq<byte>): nat
    requires |packet| >= PACKET_HEADER_SIZE
  {
    Word(packet, 2)
  }

  predicate GoodSize(n: int) {
    PACKET_HEADER_SIZE <= n <= MAX_RECV_BUFFER_SIZE
  }

  /** One whole packet: its header announces its own length, within the limits. */
  predicate Framed(packet: seq<byte>) {
    |packet| >= PACKET_HEADER_SIZE && GoodSize(|packet|) && AnnouncedSize(packet) == |packet|
  }

  predicate AllFramed(packets: seq<seq<byte>>) {
    forall i :: 0 <= i < |packets| ==> Framed(packets[i])
  }

  /** The start of a packet that has not arrived completely. */
  predicate Pending(rest: seq<byte>) {
    |rest| < PACKET_HEADER_SIZE || (GoodSize(AnnouncedSize(rest)) && |rest| < AnnouncedSize(rest))
  }

  /** A header whose size the receiver rejects. */
  predicate Malformed(rest: seq<byte>) {
    |rest| >= PACKET_HEADER_SIZE && !GoodSize(AnnouncedSize(rest))
  }

  /** Packets extracted so far, bytes still buffered, and whether the connection was closed. */
  datatype Stream = Stream(packets: seq<seq<byte>>, rest: seq<byte>, closed: bool)

  const EMPTY_STREAM := Stream([], [], false)

  function Assemble(buffer: seq<byte>): Stream
    decreases |buffer|
  {
    if |buffer| < PACKET_HEADER_SIZE then Stream([], buffer, false)
    else
      var n := AnnouncedSize(buffer);
      if !GoodSize(n) then Stream([], [], true)
      else if |buffer| < n then Stream([], buffer, false)
      else
        var tail := Assemble(buffer[n..]);
        Stream([buffer[..n]] + tail.packets, tail.rest, tail.closed)
  }

  /** More bytes arrive. */
  function Continue(s: Stream, more: seq<byte>): Stream {
    if s.closed then s
    else
      var a := Assemble(s.rest + more);
      Stream(s.packets + a.packets, a.rest, a.closed)
  }

  function HangUp(s: Stream): Stream {
    s.(rest := [], closed := true)
  }

  /** One receive completion. A completion of zero bytes is the peer's shutdown. */
  function Receive(s: Stream, chunk: seq<byte>): Stream {
    if s.closed then s else if chunk == [] then HangUp(s) else Continue(s, chunk)
  }

  function ReceiveAll(chunks: seq<seq<byte>>): Stream {
    if chunks == [] then EMPTY_STREAM
    else Receive(ReceiveAll(chunks[..|chunks| - 1]), chunks[|chunks| - 1])
  }

  /** The completions that precede the peer's shutdown. */
  function BeforeShutdown(chunks: seq<seq<byte>>): (r: seq<seq<byte>>)
    ensures r <= chunks && [] !in r
    ensures |r| < |chunks| ==> chunks[|r|] == []
  {
    if chunks == [] || chunks[0] == [] then []
    else
      var r := BeforeShutdown(chunks[1..]);
      [chunks[0]] + r
  }

  // ----- what Assemble computes -----

  /** The stream after one more packet at the front. */
  function Prepend(packet: seq<byte>, s: Stream): Stream {
    Stream([packet] + s.packets, s.rest, s.closed)
  }

  lemma AssembleFirst(packet: seq<byte>, more: seq<byte>)
    requires Framed(packet)
    ensures Assemble(packet + more) == Prepend(packet, Assemble(more))
  {
    var buffer := packet + more;
    assert buffer[..|packet|] == packet && buffer[|packet|..] == more;
  }

  lemma AssembleStuck(tail: seq<byte>)
    requires Pending(tail) || Malformed(tail)
    ensures Assemble(tail) == Stream([], if Malformed(tail) then [] else tail, Malformed(tail))
  {
  }

  /** A buffer that is not stuck begins with a whole packet. */
  lemma FirstPacket(buffer: seq<byte>) returns (packet: seq<byte>, more: seq<byte>)
    requires !Pending(buffer) && !Malformed(buffer)
    ensures Framed(packet) && buffer == packet + more && packet == buffer[..AnnouncedSize(buffer)]
  {
    var n := AnnouncedSize(buffer);
    packet, more := buffer[..n], buffer[n..];
  }

  /** `s` is the result of extracting whole packets until `tail` was left, from which none can be. */
  predicate ParsedAs(s: Stream, tail: seq<byte>) {
    AllFramed(s.packets)
    && if s.closed then Malformed(tail) && s.rest == [] else Pending(tail) && s.rest == tail
  }

  lemma SoundStep(packet: seq<byte>, more: seq<byte>, tail: seq<byte>)
    requires Framed(packet)
    requires ParsedAs(Assemble(more), tail) && more == Concat(Assemble(more).packets) + tail
    ensures ParsedAs(Assemble(packet + more), tail)
    ensures packet + more == Concat(Assemble(packet + more).packets) + tail
  {
    AssembleFirst(packet, more);
    var s := Assemble(more);
    assert ([packet] + s.packets)[1..] == s.packets;
    assert packet + (Concat(s.packets) + tail) == (packet + Concat(s.packets)) + tail;
  }

  /** Soundness: the extracted packets are whole packets, followed by what could not be extracted. */
  lemma {:induction false} AssembleSound(buffer: seq<byte>) returns (tail: seq<byte>)
    ensures ParsedAs(Assemble(buffer), tail)
    ensures buffer == Concat(Assemble(buffer).packets) + tail
    decreases |buffer|
  {
    if Pending(buffer) || Malformed(buffer) {
      AssembleStuck(buffer);
      tail := buffer;
    } else {
      var packet, more := FirstPacket(buffer);
      tail := AssembleSound(more);
      SoundStep(packet, more, tail);
    }
  }

  /** Completeness: any list of whole packets followed by a non-packet is exactly what is extracted. */
  lemma {:induction false} AssembleComplete(packets: seq<seq<byte>>, tail: seq<byte>)
    requires AllFramed(packets)
    requires Pending(tail) || Malformed(tail)
    ensures Assemble(Concat(packets) + tail)
         == Stream(packets, if Malformed(tail) then [] else tail, Malformed(tail))
  {
    if packets == [] {
      assert Concat(packets) + tail == tail;
      AssembleStuck(tail);
    } else {
      var more := Concat(packets[1..]) + tail;
      assert Concat(packets) + tail == packets[0] + more;
      AssembleFirst(packets[0], more);
      AssembleComplete(packets[1..], tail);
    }
  }

  /** A byte stream reads as packets in at most one way. */
  lemma ParseIsUnique(p: seq<seq<byte>>, x: seq<byte>, q: seq<seq<byte>>, y: seq<byte>)
    requires AllFramed(p) && AllFramed(q)
    requires Pending(x) || Malformed(x)
    requires Pending(y) || Malformed(y)
    requires Concat(p) + x == Concat(q) + y
    ensures p == q && x == y
  {
    AssembleComplete(p, x);
    AssembleComplete(q, y);
    assert x == (Concat(p) + x)[|Concat(p)|..] == (Concat(q) + y)[|Concat(q)|..] == y;
  }

  lemma ContinueStuck(a: seq<byte>, b: seq<byte>)
    requires Pending(a) || Malformed(a)
    ensures Assemble(a + b) == Continue(Assemble(a), b)
  {
    AssembleStuck(a);
    if Malformed(a) {
      AssembleStuck(a + b);
    }
  }

  lemma ContinuePrepend(packet: seq<byte>, s: Stream, b: seq<byte>)
    ensures Continue(Prepend(packet, s), b) == Prepend(packet, Continue(s, b))
  {
    if !s.closed {
      var a := Assemble(s.rest + b);
      assert ([packet] + s.packets) + a.packets == [packet] + (s.packets + a.packets);
    }
  }

  /** Cutting the stream anywhere changes nothing. */
  lemma {:induction false} AssembleAppend(a: seq<byte>, b: seq<byte>)
    ensures Assemble(a + b) == Continue(Assemble(a), b)
    decreases |a|
  {
    if Pending(a) || Malformed(a) {
      ContinueStuck(a, b);
    } else {
      var packet, more := FirstPacket(a);
      assert a + b == packet + (more + b);
      AssembleFirst(packet, more);
      AssembleFirst(packet, more + b);
      AssembleAppend(more, b);
      ContinuePrepend(packet, Assemble(more), b);
    }
  }

  lemma {:induction false} BeforeShutdownOfPrefix(chunks: seq<seq<byte>>, last: seq<byte>)
    ensures BeforeShutdown(chunks + [last])
         == if [] in chunks || last == [] then BeforeShutdown(chunks) else chunks + [last]
    ensures [] !in chunks ==> BeforeShutdown(chunks) == chunks
  {
    if chunks == [] {
      assert chunks + [last] == [last];
      assert last != [] ==> BeforeShutdown([last]) == [last] + BeforeShutdown([]) by {
        assert [last][1..] == [];
      }
    } else {
      assert (chunks + [last])[1..] == chunks[1..] + [last];
      assert chunks == [chunks[0]] + chunks[1..];
      BeforeShutdownOfPrefix(chunks[1..], last);
    }
  }

  /**
   * Chunking independence: however the stream is split into receive completions, the outcome is
   * the outcome of the joined bytes, up to the peer's shutdown if there was one.
   */
  lemma {:induction false} ChunkingIndependence(chunks: seq<seq<byte>>)
    ensures ReceiveAll(chunks)
         == var whole := Assemble(Concat(BeforeShutdown(chunks)));
            if [] in chunks then HangUp(whole) else whole
    ensures [] !in chunks ==> BeforeShutdown(chunks) == chunks
  {
    if chunks == [] {
    } else {
      var init, last := chunks[..|chunks| - 1], chunks[|chunks| - 1];
      assert chunks == init + [last];
      ChunkingIndependence(init);
      BeforeShutdownOfPrefix(init, last);
      ConcatSnoc(init, last);
      AssembleAppend(Concat(init), last);
      var _ := AssembleSound(Concat(BeforeShutdown(init)));
    }
  }

  /** Two ways of cutting the same bytes cannot be told apart. */
  lemma SameBytesSameOutcome(c: seq<seq<byte>>, d: seq<seq<byte>>)
    requires [] !in c && [] !in d && Concat(c) == Concat(d)
    ensures ReceiveAll(c) == ReceiveAll(d)
  {
    ChunkingIndependence(c);
    ChunkingIndependence(d);
  }

  /** Round trip: whole packets delivered in any pieces come out as sent, with nothing left over. */
  lemma {:induction false} FramingRoundTrip(packets: seq<seq<byte>>, chunks: seq<seq<byte>>)
    requires AllFramed(packets)
    requires [] !in chunks && Concat(chunks) == Concat(packets)
    ensures ReceiveAll(chunks) == Stream(packets, [], false)
  {
    ChunkingIndependence(chunks);
    AssembleComplete(packets, []);
    assert Concat(packets) + [] == Concat(packets);
  }

  /** Part of a stream of whole packets yields the packets it contains, in order, and stays open. */
  lemma {:induction false} AssemblePrefix(packets: seq<seq<byte>>, bytes: seq<byte>)
    requires AllFramed(packets)
    requires bytes <= Concat(packets)
    ensures var s := Assemble(bytes);
            && !s.closed
            && s.packets <= packets
            && (bytes == Concat(packets) ==> s == Stream(packets, [], false))
            && (|s.rest| >= PACKET_HEADER_SIZE ==>
                  |s.packets| < |packets| && AnnouncedSize(s.rest) == |packets[|s.packets|]|)
  {
    if packets == [] || |bytes| < |packets[0]| {
      assert packets != [] ==> bytes == packets[0][..|bytes|];
      AssembleStuck(bytes);
    } else {
      var n := |packets[0]|;
      assert bytes[..n] == packets[0];
      assert bytes[n..] == Concat(packets[1..])[..|bytes| - n];
      assert bytes == packets[0] + bytes[n..];
      AssembleFirst(packets[0], bytes[n..]);
      AssemblePrefix(packets[1..], bytes[n..]);
    }
  }
}
