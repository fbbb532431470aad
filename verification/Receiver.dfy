/**
 * The receive side of a client session: what the code makes of receive completions, with its ring
 * buffer of MAX_RECV_BUFFER_SIZE cells, against what the byte stream means (Framing).
 */
module Receiver {
  import opened Bytes
  import opened Framing
  import RB = RingBuffer

  /** The most one receive completion delivers: the length of the posted buffer. */
  const MAX_BUFFER_SIZE: nat := 4096

  datatype Status = Open | Closed | Undefined

  /** Read position, buffered bytes, packets given to the dispatcher, and whether the session is open. */
  datatype Inbox = Inbox(read: nat, rest: seq<byte>, packets: seq<seq<byte>>, status: Status)

  const EMPTY_INBOX := Inbox(0, [], [], Open)

  /** The ring buffer has room for the bytes of this completion. */
  predicate Fits(rest: seq<byte>, chunk: seq<byte>) {
    |rest| + |chunk| <= MAX_RECV_BUFFER_SIZE - 1
  }

  /**
   * The first packet is complete and ends before the end of the array, although the buffered bytes
   * reach the end: the request that the ring buffer's Read has no meaning for.
   */
  predicate EndsEarly(read: nat, buffered: seq<byte>) {
    && !Pending(buffered) && !Malformed(buffered)
    && read + AnnouncedSize(buffered) < MAX_RECV_BUFFER_SIZE <= read + |buffered|
  }

  /** What the extraction loop makes of an open inbox. */
  function Extracted(s: Inbox): Inbox {
    if EndsEarly(s.read, s.rest) then s.(status := Undefined)
    else
      var a := Assemble(s.rest);
      if a.closed then Inbox(0, [], s.packets + a.packets, Closed)
      else Inbox((s.read + |s.rest| - |a.rest|) % MAX_RECV_BUFFER_SIZE, a.rest, s.packets + a.packets, Open)
  }

  /** What one completion does. A chunk for which there is no room is lost: nobody looks at Write's result. */
  function Accept(s: Inbox, chunk: seq<byte>): Inbox {
    if !s.status.Open? then s
    else if chunk == [] then Inbox(0, [], s.packets, Closed)
    else Extracted(if Fits(s.rest, chunk) then s.(rest := s.rest + chunk) else s)
  }

  function AcceptAll(chunks: seq<seq<byte>>): Inbox {
    if chunks == [] then EMPTY_INBOX
    else Accept(AcceptAll(chunks[..|chunks| - 1]), chunks[|chunks| - 1])
  }

  // ----- the dispatcher -----

  /** The packets that reach a handler: those whose id was registered. The others are logged and dropped. */
  function Handled(ids: set<nat>, packets: seq<seq<byte>>): seq<seq<byte>> {
    if packets == [] then []
    else
      var init, last := packets[..|packets| - 1], packets[|packets| - 1];
      Handled(ids, init) + if |last| >= PACKET_HEADER_SIZE && PacketId(last) in ids then [last] else []
  }

  /** Handlers are called packet by packet, in order of arrival. */
  lemma {:induction false} HandledAppend(ids: set<nat>, a: seq<seq<byte>>, b: seq<seq<byte>>)
    ensures Handled(ids, a + b) == Handled(ids, a) + Handled(ids, b)
  {
    if b == [] {
      assert a + b == a;
    } else {
      var init, last := b[..|b| - 1], b[|b| - 1];
      assert (a + b)[..|a + b| - 1] == a + init && (a + b)[|a + b| - 1] == last;
      HandledAppend(ids, a, init);
    }
  }

  lemma HandledSnoc(ids: set<nat>, packets: seq<seq<byte>>, p: seq<byte>)
    requires |p| >= PACKET_HEADER_SIZE
    ensures Handled(ids, packets + [p]) == Handled(ids, packets) + if PacketId(p) in ids then [p] else []
  {
    assert (packets + [p])[..|packets + [p]| - 1] == packets;
  }

  /** Exactly the packets with a registered id reach a handler. */
  lemma {:induction false} HandledExactly(ids: set<nat>, packets: seq<seq<byte>>, p: seq<byte>)
    ensures p in Handled(ids, packets)
       <==> p in packets && |p| >= PACKET_HEADER_SIZE && PacketId(p) in ids
  {
    if packets != [] {
      var init, last := packets[..|packets| - 1], packets[|packets| - 1];
      assert packets == init + [last];
      HandledExactly(ids, init, p);
    }
  }

  /** A whole packet in one completion, with nothing buffered before it. */
  lemma TakesWhole(s: Inbox, p: seq<byte>)
    requires s.status.Open? && s.rest == [] && Framed(p) && |p| < MAX_RECV_BUFFER_SIZE
    ensures Accept(s, p) == Inbox((s.read + |p|) % MAX_RECV_BUFFER_SIZE, [], s.packets + [p], Open)
  {
    assert [] + p == p && p + [] == p;
    AssembleFirst(p, []);
  }

  // ----- what closes the connection -----

  /** The buffered bytes from which a completion extracts. */
  function Buffered(s: Inbox, chunk: seq<byte>): seq<byte> {
    if Fits(s.rest, chunk) then s.rest + chunk else s.rest
  }

  /** Whole packets, and then a header that announces a bad size. */
  predicate MalformedAfter(packets: seq<seq<byte>>, tail: seq<byte>, bytes: seq<byte>) {
    AllFramed(packets) && Malformed(tail) && bytes == Concat(packets) + tail
  }

  lemma MalformedExactly(bytes: seq<byte>)
    ensures Assemble(bytes).closed <==> exists packets, tail :: MalformedAfter(packets, tail, bytes)
  {
    var rest := AssembleSound(bytes);
    if Assemble(bytes).closed {
      assert MalformedAfter(Assemble(bytes).packets, rest, bytes);
    }
    forall packets, tail | MalformedAfter(packets, tail, bytes)
      ensures Assemble(bytes).closed
    {
      AssembleComplete(packets, tail);
    }
  }

  /**
   * What closes an open connection, exactly: a completion of no bytes, or a header with a bad size
   * after whole packets. Ids play no part in it.
   */
  lemma ClosesExactly(s: Inbox, chunk: seq<byte>)
    requires s.status.Open? && !Accept(s, chunk).status.Undefined?
    ensures Accept(s, chunk).status.Closed?
       <==> chunk == [] || exists packets, tail :: MalformedAfter(packets, tail, Buffered(s, chunk))
  {
    MalformedExactly(Buffered(s, chunk));
  }

  /** One packet, in any pieces, on a connection with nothing buffered. */
  lemma {:induction false} TakesPieces(before: seq<seq<byte>>, s: Inbox, chunks: seq<seq<byte>>, p: seq<byte>)
    requires AcceptAll(before) == s && s.status.Open? && s.rest == [] && s.read < MAX_RECV_BUFFER_SIZE
    requires Framed(p) && |p| < MAX_RECV_BUFFER_SIZE && [] !in chunks && Concat(chunks) <= p
    ensures AcceptAll(before + chunks)
         == if Concat(chunks) == p then Inbox((s.read + |p|) % MAX_RECV_BUFFER_SIZE, [], s.packets + [p], Open)
            else s.(rest := Concat(chunks))
  {
    if chunks == [] {
      assert before + chunks == before;
    } else {
      var init, last := chunks[..|chunks| - 1], chunks[|chunks| - 1];
      assert chunks == init + [last];
      ConcatSnoc(init, last);
      TakesPieces(before, s, init, p);
      assert (before + chunks)[..|before + chunks| - 1] == before + init;
      TakesPiece(s, Concat(init), last, p);
    }
  }

  lemma TakesPiece(s: Inbox, rest: seq<byte>, last: seq<byte>, p: seq<byte>)
    requires s.status.Open? && s.read < MAX_RECV_BUFFER_SIZE
    requires Framed(p) && |p| < MAX_RECV_BUFFER_SIZE && last != [] && rest + last <= p
    ensures Accept(s.(rest := rest), last)
         == if rest + last == p then Inbox((s.read + |p|) % MAX_RECV_BUFFER_SIZE, [], s.packets + [p], Open)
            else s.(rest := rest + last)
  {
    var buffered := rest + last;
    assert buffered == p[..|buffered|];
    if buffered == p {
      TakesWhole(s.(rest := []), p);
      assert [] + p == p;
    } else {
      AssembleStuck(buffered);
      assert s.packets + [] == s.packets;
    }
  }

  /**
   * A packet with an unregistered id, in any pieces, is taken from the stream, reaches no handler and
   * leaves the connection open.
   */
  lemma UnknownIdStaysOpen(before: seq<seq<byte>>, s: Inbox, chunks: seq<seq<byte>>, p: seq<byte>, ids: set<nat>)
    requires AcceptAll(before) == s && s.status.Open? && s.rest == []
    requires Framed(p) && |p| < MAX_RECV_BUFFER_SIZE && PacketId(p) !in ids
    requires [] !in chunks && Concat(chunks) == p
    ensures AcceptAll(before + chunks) == Inbox((s.read + |p|) % MAX_RECV_BUFFER_SIZE, [], s.packets + [p], Open)
    ensures Handled(ids, s.packets + [p]) == Handled(ids, s.packets)
  {
    ReadInRing(before);
    TakesPieces(before, s, chunks, p);
    HandledSnoc(ids, s.packets, p);
  }

  lemma {:induction false} ReadInRing(chunks: seq<seq<byte>>)
    ensures AcceptAll(chunks).read < MAX_RECV_BUFFER_SIZE
  {
    if chunks != [] {
      ReadInRing(chunks[..|chunks| - 1]);
    }
  }

  // ----- the header, byte by byte -----

  /**
   * The first completion of a connection, in terms of its first four bytes: the first two are the size,
   * low byte first, the next two the id. A size under 4 or over 8192 closes the connection; a size that
   * has not arrived waits; otherwise the first packet is dispatched, to a handler if its id has one.
   */
  lemma FirstHeader(chunk: seq<byte>, ids: set<nat>)
    requires 4 <= |chunk| <= 4096
    ensures var size := chunk[0] as nat + 256 * chunk[1] as nat;
            var s := Accept(EMPTY_INBOX, chunk);
            && (s.packets == [] && s.status.Closed? <==> size < 4 || size > 8192)
            && (s.packets == [] && s.status.Open? <==> |chunk| < size <= 8192)
            && (s.packets != [] <==> 4 <= size <= |chunk|)
            && (s.packets != [] ==>
                  && s.packets[0] == chunk[..size]
                  && Handled(ids, s.packets[..1])
                     == if chunk[2] as nat + 256 * chunk[3] as nat in ids then [chunk[..size]] else [])
  {
    var s := Accept(EMPTY_INBOX, chunk);
    assert [] + chunk == chunk;
    assert PacketId(chunk) == chunk[2] as nat + 256 * chunk[3] as nat;
    if s.packets != [] {
      FirstHandled(ids, s.packets[0]);
      assert s.packets[..1] == [s.packets[0]];
    }
  }

  lemma FirstHandled(ids: set<nat>, packet: seq<byte>)
    requires |packet| >= 4
    ensures Handled(ids, [packet])
         == if packet[2] as nat + 256 * packet[3] as nat in ids then [packet] else []
  {
    assert [packet][..0] == [];
    assert Handled(ids, []) == [];
  }

  // ----- the session -----

  /** The four ways a turn of the extraction loop ends. `Torn` is a read that has no meaning. */
  datatype Turn = Waits | Rejects | Torn | Took(packet: seq<byte>)

  function TurnOn(buffered: seq<byte>, read: nat, write: nat): Turn {
    if Pending(buffered) then Waits
    else if Malformed(buffered) then Rejects
    else if RB.ReadUndefined(MAX_RECV_BUFFER_SIZE, read, write, AnnouncedSize(buffered)) then Torn
    else Took(buffered[..AnnouncedSize(buffered)])
  }

  class ClientSession {
    const recvBuffer: RB.RingBuffer
    const ids: set<nat>
    var disconnected: bool
    var dispatched: seq<seq<byte>>
    var handled: seq<seq<byte>>

    ghost predicate Valid()
      reads this, recvBuffer
    {
      && recvBuffer.Valid()
      && recvBuffer.cells.Length == MAX_RECV_BUFFER_SIZE
      && handled == Handled(ids, dispatched)
    }

    ghost function State(): Inbox
      requires Valid()
      reads this, recvBuffer, recvBuffer.cells
    {
      Inbox(recvBuffer.readPos, recvBuffer.Contents(), dispatched, if disconnected then Closed else Open)
    }

    constructor (ids: set<nat>)
      ensures Valid() && State() == EMPTY_INBOX && this.ids == ids
      ensures fresh(recvBuffer) && fresh(recvBuffer.cells)
    {
      this.ids := ids;
      recvBuffer := new RB.RingBuffer(MAX_RECV_BUFFER_SIZE);
      disconnected, dispatched, handled := false, [], [];
    }

    /** Closes the session; giving it back to its pool clears the ring buffer. */
    method Disconnect()
      requires Valid()
      modifies this`disconnected, recvBuffer`readPos, recvBuffer`writePos
      ensures Valid()
      ensures State() == Inbox(0, [], old(dispatched), Closed)
    {
      disconnected := true;
      recvBuffer.Clear();
    }

    /** Calls the handler registered for the packet's id, if there is one. */
    method Dispatch(packet: seq<byte>)
      requires Valid()
      modifies this`dispatched, this`handled
      ensures Valid() && dispatched == old(dispatched) + [packet]
    {
      dispatched := dispatched + [packet];
      assert dispatched[..|dispatched| - 1] == old(dispatched);
      if |packet| < PACKET_HEADER_SIZE {
        return;
      }
      if PacketId(packet) in ids {
        handled := handled + [packet];
      }
    }

    /** A receive completion with these bytes. */
    method OnRecvCompleted(chunk: seq<byte>) returns (status: Status)
      requires Valid() && !disconnected
      modifies this, recvBuffer, recvBuffer.cells
      ensures Valid()
      ensures status == Accept(old(State()), chunk).status
      ensures !status.Undefined? ==> State() == Accept(old(State()), chunk)
    {
      if |chunk| == 0 {
        Disconnect();
        return Closed;
      }
      var _ := recvBuffer.Write(chunk);
      status := Extract();
    }

    /** The loop that extracts every complete packet. */
    method Extract() returns (status: Status)
      requires Valid() && !disconnected
      modifies this, recvBuffer
      ensures Valid()
      ensures status == Extracted(old(State())).status
      ensures !status.Undefined? ==> State() == Extracted(old(State()))
    {
      ghost var start := State();
      ghost var got: seq<seq<byte>> := [];
      StoredLength();
      while true
        invariant Valid() && Underway(start, got)
        decreases |recvBuffer.Contents()|
      {
        var turn := ExtractNext(start, got);
        match turn
        case Took(packet) => got := got + [packet];
        case Torn => return Undefined;
        case Waits => return Open;
        case Rejects => return Closed;
      }
    }

    /** The loop invariant: `got` has been extracted from `start` and dispatched. */
    ghost predicate Underway(start: Inbox, got: seq<seq<byte>>)
      requires Valid()
      reads this, recvBuffer, recvBuffer.cells
    {
      && !disconnected
      && dispatched == start.packets + got
      && Extracting(start, got, recvBuffer.readPos, recvBuffer.writePos, recvBuffer.Contents())
    }

    /** A turn of the loop, seen from its start. */
    method ExtractNext(ghost start: Inbox, ghost got: seq<seq<byte>>) returns (turn: Turn)
      requires Valid() && Underway(start, got)
      modifies this, recvBuffer
      ensures Valid()
      ensures turn.Took? ==>
                Underway(start, got + [turn.packet]) && |recvBuffer.Contents()| < old(|recvBuffer.Contents()|)
      ensures turn.Torn? ==> Extracted(start).status.Undefined?
      ensures turn.Waits? || turn.Rejects? ==> State() == Extracted(start) && disconnected == turn.Rejects?
    {
      ghost var c, r, w := recvBuffer.Contents(), recvBuffer.readPos, recvBuffer.writePos;
      turn := ExtractOne();
      ExtractingTurn(start, got, r, w, c, turn, recvBuffer.readPos, recvBuffer.Contents());
    }

    /** One turn of the extraction loop. */
    method ExtractOne() returns (turn: Turn)
      requires Valid() && !disconnected
      modifies this, recvBuffer
      ensures Valid()
      ensures turn == TurnOn(old(State().rest), old(recvBuffer.readPos), old(recvBuffer.writePos))
      ensures turn.Waits? ==> State() == old(State())
      ensures turn.Rejects? ==> State() == Inbox(0, [], old(dispatched), Closed)
      ensures turn.Took? ==>
                && !disconnected
                && dispatched == old(dispatched) + [turn.packet]
                && recvBuffer.Contents() == old(recvBuffer.Contents())[|turn.packet|..]
                && recvBuffer.readPos == (old(recvBuffer.readPos) + |turn.packet|) % MAX_RECV_BUFFER_SIZE
                && recvBuffer.writePos == old(recvBuffer.writePos)
    {
      if recvBuffer.GetStoredSize() < PACKET_HEADER_SIZE {
        return Waits;
      }
      var ok, header := recvBuffer.Peek(PACKET_HEADER_SIZE);
      var size := AnnouncedSize(header);
      assert size == AnnouncedSize(recvBuffer.Contents());
      if size < PACKET_HEADER_SIZE || size > MAX_RECV_BUFFER_SIZE {
        Disconnect();
        return Rejects;
      }
      if recvBuffer.GetStoredSize() < size {
        return Waits;
      }
      var result := recvBuffer.Read(size);
      if result.Undefined? {
        return Torn;
      }
      Dispatch(result.bytes);
      return Took(result.bytes);
    }

    lemma StoredLength()
      requires Valid()
      ensures |recvBuffer.Contents()| == RB.StoredSize(MAX_RECV_BUFFER_SIZE, recvBuffer.readPos, recvBuffer.writePos)
    {
      RB.StoredLength(recvBuffer.cells[..], recvBuffer.readPos, recvBuffer.writePos);
    }
  }

  // ----- the extraction loop -----

  /** The stream with the packets `got` in front. */
  function Behind(got: seq<seq<byte>>, s: Stream): Stream {
    Stream(got + s.packets, s.rest, s.closed)
  }

  /**
   * Loop invariant: `got` has been extracted from `start`, `c` is left between the positions `r` and
   * `w`, and after the first packet the stored bytes no longer wrap around.
   */
  predicate Extracting(start: Inbox, got: seq<seq<byte>>, r: nat, w: nat, c: seq<byte>) {
    && r < MAX_RECV_BUFFER_SIZE && w < MAX_RECV_BUFFER_SIZE
    && |c| == RB.StoredSize(MAX_RECV_BUFFER_SIZE, r, w)
    && Assemble(start.rest) == Behind(got, Assemble(c))
    && |c| <= |start.rest|
    && r == (start.read + |start.rest| - |c|) % MAX_RECV_BUFFER_SIZE
    && if got == [] then r == start.read && c == start.rest
       else r <= w && !EndsEarly(start.read, start.rest)
  }

  lemma ExtractingStops(start: Inbox, got: seq<seq<byte>>, r: nat, w: nat, c: seq<byte>)
    requires Extracting(start, got, r, w, c)
    requires Pending(c) || Malformed(c)
    ensures Extracted(start) == if Malformed(c) then Inbox(0, [], start.packets + got, Closed)
                                else Inbox(r, c, start.packets + got, Open)
  {
    AssembleStuck(c);
  }

  /** Only the first read of a completion can be undefined. */
  lemma FirstReadOnly(start: Inbox, got: seq<seq<byte>>, r: nat, w: nat, c: seq<byte>)
    requires Extracting(start, got, r, w, c)
    requires !Pending(c) && !Malformed(c)
    ensures RB.ReadUndefined(MAX_RECV_BUFFER_SIZE, r, w, AnnouncedSize(c))
       <==> got == [] && EndsEarly(start.read, start.rest)
  {
  }

  lemma ReadAdvance(begin: nat, total: nat, left: nat, n: nat, r: nat)
    requires n <= left <= total && r == (begin + total - left) % MAX_RECV_BUFFER_SIZE
    ensures (r + n) % MAX_RECV_BUFFER_SIZE == (begin + total - (left - n)) % MAX_RECV_BUFFER_SIZE
  {
  }

  /** Reading advances the position round, after which the stored bytes no longer wrap. */
  lemma ReadUnwraps(r: nat, w: nat, n: nat)
    requires r < MAX_RECV_BUFFER_SIZE && w < MAX_RECV_BUFFER_SIZE
    requires n <= RB.StoredSize(MAX_RECV_BUFFER_SIZE, r, w)
    requires !RB.ReadUndefined(MAX_RECV_BUFFER_SIZE, r, w, n)
    ensures (r + n) % MAX_RECV_BUFFER_SIZE <= w
    ensures RB.StoredSize(MAX_RECV_BUFFER_SIZE, (r + n) % MAX_RECV_BUFFER_SIZE, w)
         == RB.StoredSize(MAX_RECV_BUFFER_SIZE, r, w) - n
  {
  }

  lemma ExtractingReads(start: Inbox, got: seq<seq<byte>>, r: nat, w: nat, c: seq<byte>)
    requires Extracting(start, got, r, w, c)
    requires !Pending(c) && !Malformed(c)
    requires !RB.ReadUndefined(MAX_RECV_BUFFER_SIZE, r, w, AnnouncedSize(c))
    ensures Extracting(start, got + [c[..AnnouncedSize(c)]], (r + AnnouncedSize(c)) % MAX_RECV_BUFFER_SIZE,
                       w, c[AnnouncedSize(c)..])
  {
    var n := AnnouncedSize(c);
    FirstReadOnly(start, got, r, w, c);
    ReadAdvance(start.read, |start.rest|, |c|, n, r);
    ReadUnwraps(r, w, n);
    BehindMore(start, got, c);
  }

  lemma BehindMore(start: Inbox, got: seq<seq<byte>>, c: seq<byte>)
    requires !Pending(c) && !Malformed(c) && Assemble(start.rest) == Behind(got, Assemble(c))
    ensures Assemble(start.rest) == Behind(got + [c[..AnnouncedSize(c)]], Assemble(c[AnnouncedSize(c)..]))
  {
    var packet, more := FirstPacket(c);
    assert more == c[AnnouncedSize(c)..];
    AssembleFirst(packet, more);
    assert got + ([packet] + Assemble(more).packets) == (got + [packet]) + Assemble(more).packets;
  }

  lemma ExtractingTurn(start: Inbox, got: seq<seq<byte>>, r: nat, w: nat, c: seq<byte>,
                       turn: Turn, r': nat, c': seq<byte>)
    requires Extracting(start, got, r, w, c) && turn == TurnOn(c, r, w)
    requires turn.Took? ==> c' == c[|turn.packet|..] && r' == (r + |turn.packet|) % MAX_RECV_BUFFER_SIZE
    ensures turn.Took? ==> |c'| < |c| && Extracting(start, got + [turn.packet], r', w, c')
    ensures turn.Torn? ==> Extracted(start).status.Undefined?
    ensures turn.Waits? ==> Extracted(start) == Inbox(r, c, start.packets + got, Open)
    ensures turn.Rejects? ==> Extracted(start) == Inbox(0, [], start.packets + got, Closed)
  {
    if Pending(c) || Malformed(c) {
      ExtractingStops(start, got, r, w, c);
    } else {
      FirstReadOnly(start, got, r, w, c);
      if turn.Took? {
        ExtractingReads(start, got, r, w, c);
      }
    }
  }
}
