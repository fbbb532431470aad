/**
 * The receive side against a peer that sends whole packets: which streams the code gets right however
 * the system cuts them into completions.
 */
module Cuttings {
  import opened Bytes
  import opened Framing
  import opened Receiver
  import opened ReceiverRuns

  /** Completions of up to the length of the posted buffer. */
  predicate AllPieces(chunks: seq<seq<byte>>) {
    forall i :: 0 <= i < |chunks| ==> 0 < |chunks[i]| <= MAX_BUFFER_SIZE
  }

  /** The completions so far of a peer that sends these packets. */
  predicate CutOf(packets: seq<seq<byte>>, chunks: seq<seq<byte>>) {
    AllPieces(chunks) && Concat(chunks) <= Concat(packets)
  }

  lemma CutInit(packets: seq<seq<byte>>, init: seq<seq<byte>>, last: seq<byte>)
    requires CutOf(packets, init + [last])
    ensures CutOf(packets, init) && [] !in init && 0 < |last| <= MAX_BUFFER_SIZE
    ensures Concat(init) + last <= Concat(packets)
  {
    ConcatSnoc(init, last);
    PiecesInit(init, last);
  }

  lemma PiecesInit(init: seq<seq<byte>>, last: seq<byte>)
    requires AllPieces(init + [last])
    ensures AllPieces(init) && [] !in init && 0 < |last| <= MAX_BUFFER_SIZE
  {
    assert forall i :: 0 <= i < |init| ==> init[i] == (init + [last])[i];
    assert (init + [last])[|init|] == last;
  }

  /** Some way to cut the bytes. */
  function Pieces(bytes: seq<byte>): (r: seq<seq<byte>>)
    ensures AllPieces(r) && Concat(r) == bytes
    decreases |bytes|
  {
    if bytes == [] then []
    else if |bytes| <= MAX_BUFFER_SIZE then ConcatTwo(bytes, bytes); [bytes]
    else [bytes[..MAX_BUFFER_SIZE]] + Pieces(bytes[MAX_BUFFER_SIZE..])
  }

  // ----- room -----

  /** No chunk of a stream of such packets is lost: what can go wrong is that a packet ends early. */
  lemma {:induction false} SmallPacketsGood(packets: seq<seq<byte>>, chunks: seq<seq<byte>>)
    requires AllFramed(packets) && AllAtMost(packets, MAX_RECV_BUFFER_SIZE - MAX_BUFFER_SIZE)
    requires CutOf(packets, chunks)
    ensures AllGood(chunks) || AcceptAll(chunks).status.Undefined?
  {
    if chunks != [] {
      var init, last := chunks[..|chunks| - 1], chunks[|chunks| - 1];
      assert chunks == init + [last];
      CutInit(packets, init, last);
      SmallPacketsGood(packets, init);
      SmallPacketsFit(packets, init, last);
      AgreesExactlyWhenGood(init);
    }
  }

  /** No completion of a peer that sends packets of up to n bytes finds too little room. */
  ghost predicate NeverFull(n: nat) {
    forall packets, chunks, chunk: seq<byte> ::
      AllFramed(packets) && AllAtMost(packets, n)
      && CutOf(packets, chunks + [chunk]) && AcceptAll(chunks).status.Open?
      ==> Fits(AcceptAll(chunks).rest, chunk)
  }

  /**
   * Room, exactly: a peer that may send any packets of up to n bytes never loses a chunk if and only
   * if n is at most 4096.
   */
  lemma RoomExactly(n: nat)
    requires GoodSize(n)
    ensures NeverFull(n) <==> n <= 4096
  {
    if n <= MAX_RECV_BUFFER_SIZE - MAX_BUFFER_SIZE {
      forall packets, chunks, chunk: seq<byte> |
        AllFramed(packets) && AllAtMost(packets, n)
        && CutOf(packets, chunks + [chunk]) && AcceptAll(chunks).status.Open?
        ensures Fits(AcceptAll(chunks).rest, chunk)
      {
        CutInit(packets, chunks, chunk);
        SmallPacketsGood(packets, chunks);
        AgreesExactlyWhenGood(chunks);
        SmallPacketsFit(packets, chunks, chunk);
      }
    } else {
      var packets, first, second := FillsUp(n);
      assert !Fits(AcceptAll([] + [first]).rest, second);
    }
  }

  /** Two packets of more than 4096 bytes, the first 8192 bytes in two completions: the second is lost. */
  lemma FillsUp(n: nat) returns (packets: seq<seq<byte>>, first: seq<byte>, second: seq<byte>)
    requires GoodSize(n) && n > MAX_RECV_BUFFER_SIZE - MAX_BUFFER_SIZE
    ensures AllFramed(packets) && AllAtMost(packets, n)
    ensures CutOf(packets, [] + [first] + [second])
    ensures AcceptAll([] + [first]) == Inbox(0, first, [], Open)
    ensures !Fits(first, second)
    ensures AcceptAll([] + [first] + [second]) == Inbox(0, first, [], Open)
  {
    var p := ZeroPacket(n);
    packets := [p, p];
    first, second := p[..4096], (p + p)[4096..8192];
    ConcatTwo(p, p);
    ConcatTwo(first, second);
    assert [] + [first] + [second] == [first, second];
    assert first + second == (p + p)[..8192];
    assert ([] + [first])[..0] == [] && ([first] + [second])[..1] == [first];
    assert [] + first == first;
    assert AnnouncedSize(first) == n;
    AssembleStuck(first);
  }

  // ----- the first time round the ring -----

  /** Until the ring has come round once, every completion is good. */
  lemma {:induction false} FirstRoundIsGood(chunks: seq<seq<byte>>)
    requires [] !in chunks && |Concat(chunks)| < MAX_RECV_BUFFER_SIZE
    ensures AllGood(chunks)
  {
    if chunks != [] {
      var init, last := chunks[..|chunks| - 1], chunks[|chunks| - 1];
      assert chunks == init + [last];
      ConcatSnoc(init, last);
      FirstRoundIsGood(init);
      ChunkingIndependence(init);
      FirstRoundStep(Concat(init), last);
    }
  }

  lemma FirstRoundStep(got: seq<byte>, last: seq<byte>)
    requires |got| + |last| < MAX_RECV_BUFFER_SIZE
    ensures GoodCompletion(Assemble(got), last)
  {
    AssembledSize(got);
    BeforeBoundary(Assemble(got), last);
  }

  lemma AssembledSize(bytes: seq<byte>)
    ensures !Assemble(bytes).closed ==> |Concat(Assemble(bytes).packets)| + |Assemble(bytes).rest| == |bytes|
  {
    var tail := AssembleSound(bytes);
  }

  lemma BeforeBoundary(t: Stream, last: seq<byte>)
    requires t.closed || |Concat(t.packets)| + |t.rest| + |last| < MAX_RECV_BUFFER_SIZE
    ensures GoodCompletion(t, last)
  {
  }

  /** The header is there as sent, or not there yet. */
  predicate StartOf(p: seq<byte>, rest: seq<byte>)
    requires |p| >= PACKET_HEADER_SIZE
  {
    if |rest| < PACKET_HEADER_SIZE then rest == p[..|rest|]
    else rest[..PACKET_HEADER_SIZE] == p[..PACKET_HEADER_SIZE]
  }

  lemma FullNeverEnds(p: seq<byte>, rest: seq<byte>)
    requires Framed(p) && |p| == MAX_RECV_BUFFER_SIZE && |rest| < |p| && StartOf(p, rest)
    ensures Pending(rest)
  {
    if |rest| >= PACKET_HEADER_SIZE {
      assert rest[0] == rest[..PACKET_HEADER_SIZE][0] && rest[1] == rest[..PACKET_HEADER_SIZE][1];
    }
  }

  lemma {:induction false} FullNeverDispatched(p: seq<byte>, chunks: seq<seq<byte>>) returns (rest: seq<byte>)
    requires Framed(p) && |p| == MAX_RECV_BUFFER_SIZE
    requires AllPieces(chunks) && Concat(chunks) <= p
    ensures AcceptAll(chunks) == Inbox(0, rest, [], Open)
    ensures |rest| < MAX_RECV_BUFFER_SIZE && StartOf(p, rest)
    ensures rest == Concat(chunks) || |rest| >= PACKET_HEADER_SIZE
  {
    if chunks == [] {
      rest := [];
    } else {
      var init, last := chunks[..|chunks| - 1], chunks[|chunks| - 1];
      assert chunks == init + [last];
      ConcatSnoc(init, last);
      var before := FullNeverDispatched(p, init);
      rest := FullStep(p, Concat(init), before, last);
    }
  }

  /** One more completion of a packet as long as the ring: nothing is dispatched. */
  lemma FullStep(p: seq<byte>, got: seq<byte>, before: seq<byte>, last: seq<byte>) returns (rest: seq<byte>)
    requires Framed(p) && |p| == MAX_RECV_BUFFER_SIZE && got + last <= p && 0 < |last| <= MAX_BUFFER_SIZE
    requires |before| < MAX_RECV_BUFFER_SIZE && StartOf(p, before)
    requires before == got || |before| >= PACKET_HEADER_SIZE
    ensures Accept(Inbox(0, before, [], Open), last) == Inbox(0, rest, [], Open)
    ensures |rest| < MAX_RECV_BUFFER_SIZE && StartOf(p, rest)
    ensures rest == got + last || |rest| >= PACKET_HEADER_SIZE
  {
    rest := if Fits(before, last) then before + last else before;
    StartMore(p, got, before, last);
    FullNeverEnds(p, rest);
    AssembleStuck(rest);
  }

  lemma StartMore(p: seq<byte>, got: seq<byte>, before: seq<byte>, last: seq<byte>)
    requires |p| >= PACKET_HEADER_SIZE && got + last <= p && StartOf(p, before)
    requires before == got || |before| >= PACKET_HEADER_SIZE
    ensures StartOf(p, before + last)
  {
    if |before| >= PACKET_HEADER_SIZE {
      assert (before + last)[..PACKET_HEADER_SIZE] == before[..PACKET_HEADER_SIZE];
    } else {
      assert before + last == p[..|before + last|];
      assert |before + last| >= PACKET_HEADER_SIZE ==>
          p[..|before + last|][..PACKET_HEADER_SIZE] == p[..PACKET_HEADER_SIZE];
    }
  }

  /**
   * The size check accepts packets of up to 8192 bytes, and the ring buffer holds 8191. Exactly the
   * shorter ones arrive on a new connection, however they are cut.
   */
  lemma LargestPacket(p: seq<byte>, chunks: seq<seq<byte>>)
    requires Framed(p) && AllPieces(chunks) && Concat(chunks) == p
    ensures AcceptAll(chunks).status.Open?
    ensures AcceptAll(chunks).packets == if |p| < 8192 then [p] else []
  {
    if |p| < MAX_RECV_BUFFER_SIZE {
      FirstRoundIsGood(chunks);
      AgreesExactlyWhenGood(chunks);
      ConcatTwo(p, p);
      FramingRoundTrip([p], chunks);
    } else {
      var _ := FullNeverDispatched(p, chunks);
    }
  }

  // ----- every way of cutting a stream -----

  /** Where packet `i` starts in the stream. */
  function StartAt(packets: seq<seq<byte>>, i: nat): nat
    requires i <= |packets|
  {
    |Concat(packets[..i])|
  }

  /** The first place after `n` where the ring comes round. */
  function NextBoundary(n: nat): nat {
    n - n % MAX_RECV_BUFFER_SIZE + MAX_RECV_BUFFER_SIZE
  }

  /** Packet `i` is short, or the stream stops before a completion could overfill the ring behind its start. */
  predicate HasRoom(packets: seq<seq<byte>>, i: nat)
    requires i < |packets|
  {
    || |packets[i]| <= MAX_RECV_BUFFER_SIZE - MAX_BUFFER_SIZE
    || |Concat(packets)| - StartAt(packets, i) < MAX_RECV_BUFFER_SIZE
  }

  /**
   * Packet `i` does not end fewer than 4096 bytes before the first boundary after its start, if the
   * stream gets there.
   */
  predicate EndsClear(packets: seq<seq<byte>>, i: nat)
    requires i < |packets|
  {
    var end, b := StartAt(packets, i + 1), NextBoundary(StartAt(packets, i));
    end < b <= |Concat(packets)| ==> b - end >= MAX_BUFFER_SIZE
  }

  predicate Survives(packets: seq<seq<byte>>) {
    forall i :: 0 <= i < |packets| ==> HasRoom(packets, i) && EndsClear(packets, i)
  }

  ghost predicate EveryCuttingGood(packets: seq<seq<byte>>) {
    forall chunks :: CutOf(packets, chunks) ==> AllGood(chunks)
  }

  /** Packet `i` in the stream. */
  lemma InStream(packets: seq<seq<byte>>, i: nat)
    requires i < |packets|
    ensures Concat(packets) == Concat(packets[..i]) + (packets[i] + Concat(packets[i + 1..]))
  {
    AroundIndex(packets, i);
    ConcatAppend(packets[..i], [packets[i]] + packets[i + 1..]);
    ConcatFirst(packets[i], packets[i + 1..]);
  }

  lemma Around(packets: seq<seq<byte>>, i: nat)
    requires i < |packets|
    ensures StartAt(packets, i + 1) == StartAt(packets, i) + |packets[i]|
    ensures StartAt(packets, i + 1) <= |Concat(packets)|
  {
    AroundIndex(packets, i);
    ConcatSnoc(packets[..i], packets[i]);
    InStream(packets, i);
  }

  lemma AroundIndex<T>(a: seq<T>, i: nat)
    requires i < |a|
    ensures a[..i + 1] == a[..i] + [a[i]]
    ensures a == a[..i] + ([a[i]] + a[i + 1..])
  {
  }

  lemma ConcatFirst(first: seq<byte>, rest: seq<seq<byte>>)
    ensures Concat([first] + rest) == first + Concat(rest)
  {
    assert ([first] + rest)[1..] == rest;
  }

  /** Where a cut stream stands: inside packet `|t.packets|`, or at the end. */
  lemma CutStands(packets: seq<seq<byte>>, init: seq<seq<byte>>)
    requires AllFramed(packets) && [] !in init && Concat(init) <= Concat(packets)
    ensures var t := ReceiveAll(init);
            && t == Assemble(Concat(init))
            && !t.closed && Pending(t.rest)
            && |t.packets| <= |packets| && t.packets == packets[..|t.packets|]
            && |Concat(init)| == StartAt(packets, |t.packets|) + |t.rest|
            && (|t.rest| >= PACKET_HEADER_SIZE ==>
                  |t.packets| < |packets| && AnnouncedSize(t.rest) == |packets[|t.packets|]|)
  {
    ChunkingIndependence(init);
    AssemblePrefix(packets, Concat(init));
    var tail := AssembleSound(Concat(init));
  }

  /** The next packet of the stream, once the bytes of a completion complete it. */
  lemma NextOfStream(packets: seq<seq<byte>>, init: seq<seq<byte>>, last: seq<byte>)
    requires AllFramed(packets) && [] !in init && Concat(init) + last <= Concat(packets)
    requires var buffered := ReceiveAll(init).rest + last; !Pending(buffered) && !Malformed(buffered)
    ensures var t := ReceiveAll(init);
            |t.packets| < |packets| && AnnouncedSize(t.rest + last) == |packets[|t.packets|]|
  {
    var t := ReceiveAll(init);
    assert Concat(init) <= Concat(init) + last;
    CutStands(packets, init);
    var packet, more := FirstPacket(t.rest + last);
    AssembleFirst(packet, more);
    AssembleAppend(Concat(init), last);
    AssemblePrefix(packets, Concat(init) + last);
    assert (t.packets + Assemble(t.rest + last).packets)[|t.packets|] == packet;
  }

  lemma EarlyIsNear(start: nat, buffered: seq<byte>, before: nat)
    requires EndsEarly(start % MAX_RECV_BUFFER_SIZE, buffered)
    requires before < AnnouncedSize(buffered) && |buffered| <= before + MAX_BUFFER_SIZE
    ensures var end, b := start + AnnouncedSize(buffered), NextBoundary(start);
            end < b <= start + |buffered| && b - end < MAX_BUFFER_SIZE
  {
  }

  /** A packet that ends early ends close before the boundary that the completion reaches. */
  lemma EarlyEndIsClose(packets: seq<seq<byte>>, init: seq<seq<byte>>, last: seq<byte>)
    requires AllFramed(packets) && CutOf(packets, init + [last])
    requires EndsEarly(Position(ReceiveAll(init)), ReceiveAll(init).rest + last)
    ensures !Survives(packets)
  {
    CutInit(packets, init, last);
    CutStands(packets, init);
    NextOfStream(packets, init, last);
    var t := ReceiveAll(init);
    var i := |t.packets|;
    Around(packets, i);
    EarlyIsNear(StartAt(packets, i), t.rest + last, |t.rest|);
    assert !EndsClear(packets, i);
  }

  /** A completion for which there is no room meets a long packet that starts far before it. */
  lemma NoRoomIsLong(packets: seq<seq<byte>>, init: seq<seq<byte>>, last: seq<byte>)
    requires AllFramed(packets) && CutOf(packets, init + [last])
    requires !Fits(ReceiveAll(init).rest, last)
    ensures !Survives(packets)
  {
    CutInit(packets, init, last);
    CutStands(packets, init);
    assert !HasRoom(packets, |ReceiveAll(init).packets|);
  }

  lemma {:induction false} SurvivorIsGood(packets: seq<seq<byte>>, chunks: seq<seq<byte>>)
    requires AllFramed(packets) && Survives(packets) && CutOf(packets, chunks)
    ensures AllGood(chunks)
  {
    if chunks != [] {
      var init, last := chunks[..|chunks| - 1], chunks[|chunks| - 1];
      assert chunks == init + [last];
      CutInit(packets, init, last);
      SurvivorIsGood(packets, init);
      if !Fits(ReceiveAll(init).rest, last) {
        NoRoomIsLong(packets, init, last);
      } else if EndsEarly(Position(ReceiveAll(init)), ReceiveAll(init).rest + last) {
        EarlyEndIsClose(packets, init, last);
      }
    }
  }

  // ----- cuttings that break a stream -----

  /** The stream up to `k` bytes into packet `i`. */
  lemma PartWay(packets: seq<seq<byte>>, i: nat, k: nat)
    requires AllFramed(packets) && i < |packets| && k < |packets[i]|
    ensures StartAt(packets, i) + k <= |Concat(packets)|
    ensures Assemble(Concat(packets)[..StartAt(packets, i) + k]) == Stream(packets[..i], packets[i][..k], false)
  {
    InStream(packets, i);
    TakeInto(Concat(packets[..i]), packets[i], Concat(packets[i + 1..]), k);
    AssembleComplete(packets[..i], packets[i][..k]);
  }

  lemma TakeInto<T>(a: seq<T>, b: seq<T>, c: seq<T>, k: nat)
    requires k <= |b|
    ensures (a + (b + c))[..|a| + k] == a + b[..k]
  {
  }

  /** The first `m` bytes anyhow, and then the bytes up to `b` in one completion. */
  function CutAt(sent: seq<byte>, m: nat, b: nat): (r: seq<seq<byte>>)
    requires m < b <= |sent| && b - m <= MAX_BUFFER_SIZE
    ensures r == Pieces(sent[..m]) + [sent[m..b]]
    ensures AllPieces(r) && Concat(r) == sent[..b]
  {
    ConcatSnoc(Pieces(sent[..m]), sent[m..b]);
    assert sent[..m] + sent[m..b] == sent[..b];
    Pieces(sent[..m]) + [sent[m..b]]
  }

  /** A completion that is bad where the bytes before it lead. */
  lemma BadLast(init: seq<seq<byte>>, last: seq<byte>, t: Stream)
    requires [] !in init && last != []
    requires Assemble(Concat(init)) == t && !GoodCompletion(t, last)
    ensures !AllGood(init + [last])
    ensures |Concat(init)| < MAX_RECV_BUFFER_SIZE && Fits(t.rest, last) ==>
              AcceptAll(init + [last]).status.Undefined?
  {
    ChunkingIndependence(init);
    assert (init + [last])[..|init|] == init;
    if |Concat(init)| < MAX_RECV_BUFFER_SIZE {
      FirstRoundIsGood(init);
      AgreesExactlyWhenGood(init);
    }
  }

  /** The bytes from the last one of packet `i` on, after all before it. */
  lemma LastByteArrives(packets: seq<seq<byte>>, i: nat, b: nat)
    requires AllFramed(packets) && i < |packets| && StartAt(packets, i + 1) < b <= |Concat(packets)|
    ensures StartAt(packets, i + 1) > 0
    ensures var p := packets[i];
            var buffered := p[..|p| - 1] + Concat(packets)[StartAt(packets, i + 1) - 1..b];
            && |buffered| == b - StartAt(packets, i)
            && AnnouncedSize(buffered) == |p|
  {
    var p := packets[i];
    Around(packets, i);
    InStream(packets, i);
    var buffered := p[..|p| - 1] + Concat(packets)[StartAt(packets, i + 1) - 1..b];
    assert buffered[0] == p[0] && buffered[1] == p[1];
  }

  lemma EndsBefore(start: nat, b: nat, buffered: seq<byte>)
    requires b == NextBoundary(start) && |buffered| == b - start && |buffered| >= PACKET_HEADER_SIZE
    requires GoodSize(AnnouncedSize(buffered)) && start + AnnouncedSize(buffered) < b
    ensures EndsEarly(start % MAX_RECV_BUFFER_SIZE, buffered)
  {
  }

  /** Where the stream stands one byte before the end of packet `i`. */
  function OneByteShort(packets: seq<seq<byte>>, i: nat): Stream
    requires i < |packets| && packets[i] != []
  {
    Stream(packets[..i], packets[i][..|packets[i]| - 1], false)
  }

  lemma OneByteShortIs(packets: seq<seq<byte>>, i: nat)
    requires AllFramed(packets) && i < |packets|
    ensures 0 < StartAt(packets, i + 1) <= |Concat(packets)|
    ensures Assemble(Concat(packets)[..StartAt(packets, i + 1) - 1]) == OneByteShort(packets, i)
  {
    Around(packets, i);
    var k := |packets[i]| - 1;
    assert StartAt(packets, i) + k == StartAt(packets, i + 1) - 1;
    PartWay(packets, i, k);
  }

  /** There, a completion that goes on to the boundary ends the packet early. */
  lemma EarlyAtBoundary(packets: seq<seq<byte>>, i: nat, m: nat, b: nat)
    requires AllFramed(packets) && i < |packets| && !EndsClear(packets, i)
    requires m + 1 == StartAt(packets, i + 1) && b == NextBoundary(StartAt(packets, i))
    ensures m < b <= |Concat(packets)| && b - m <= MAX_BUFFER_SIZE
    ensures EndsEarly(Position(OneByteShort(packets, i)), OneByteShort(packets, i).rest + Concat(packets)[m..b])
  {
    var p, start := packets[i], StartAt(packets, i);
    Around(packets, i);
    LastByteArrives(packets, i, b);
    EndsBefore(start, b, p[..|p| - 1] + Concat(packets)[m..b]);
  }

  /**
   * A cutting that ends packet `i` early: stop one byte short of its end, then go on to the boundary.
   * The first time round, with a packet that leaves room, the code's outcome is undefined.
   */
  lemma EarlyCut(packets: seq<seq<byte>>, i: nat) returns (chunks: seq<seq<byte>>)
    requires AllFramed(packets) && i < |packets| && !EndsClear(packets, i)
    ensures CutOf(packets, chunks) && !AllGood(chunks)
    ensures |packets[i]| <= MAX_RECV_BUFFER_SIZE - MAX_BUFFER_SIZE && StartAt(packets, i + 1) < MAX_RECV_BUFFER_SIZE
            ==> AcceptAll(chunks).status.Undefined?
  {
    OneByteShortIs(packets, i);
    var sent, m, b := Concat(packets), StartAt(packets, i + 1) - 1, NextBoundary(StartAt(packets, i));
    EarlyAtBoundary(packets, i, m, b);
    chunks := CutAt(sent, m, b);
    BadLast(Pieces(sent[..m]), sent[m..b], OneByteShort(packets, i));
  }

  /** A cutting that finds no room in packet `i`: its first 4096 bytes, then 4096 more. */
  lemma FullCut(packets: seq<seq<byte>>, i: nat) returns (chunks: seq<seq<byte>>)
    requires AllFramed(packets) && i < |packets| && !HasRoom(packets, i)
    ensures CutOf(packets, chunks) && !AllGood(chunks)
  {
    var sent, m := Concat(packets), StartAt(packets, i) + 4096;
    PartWay(packets, i, 4096);
    chunks := CutAt(sent, m, m + 4096);
    BadLast(Pieces(sent[..m]), sent[m..m + 4096], Assemble(sent[..m]));
  }

  /**
   * Which streams survive every cutting, exactly, in terms of the stream alone: every packet longer
   * than 4096 bytes starts fewer than 8192 bytes before the end of the stream, and none ends fewer
   * than 4096 bytes before the first place after its start where the ring comes round.
   */
  lemma EveryCuttingExactly(packets: seq<seq<byte>>)
    requires AllFramed(packets)
    ensures EveryCuttingGood(packets) <==> Survives(packets)
  {
    if Survives(packets) {
      forall chunks | CutOf(packets, chunks)
        ensures AllGood(chunks)
      {
        SurvivorIsGood(packets, chunks);
      }
    } else {
      var chunks := BreakingCut(packets);
    }
  }

  lemma BreakingCut(packets: seq<seq<byte>>) returns (chunks: seq<seq<byte>>)
    requires AllFramed(packets) && !Survives(packets)
    ensures CutOf(packets, chunks) && !AllGood(chunks)
  {
    var i :| 0 <= i < |packets| && !(HasRoom(packets, i) && EndsClear(packets, i));
    if HasRoom(packets, i) {
      chunks := EarlyCut(packets, i);
    } else {
      chunks := FullCut(packets, i);
    }
  }

  // ----- short packets -----

  /** No packet ends fewer than 4096 bytes before a place, reached by the stream, where the ring comes round. */
  ghost predicate ClearOfBoundaries(packets: seq<seq<byte>>) {
    forall i: nat, j: nat :: 0 < i <= |packets| && StartAt(packets, i) < Boundary(j) <= |Concat(packets)| ==>
      Boundary(j) - StartAt(packets, i) >= MAX_BUFFER_SIZE
  }

  function Boundary(j: nat): nat {
    MAX_RECV_BUFFER_SIZE * j
  }

  lemma NextBoundaryIs(n: nat, j: nat)
    requires Boundary(j) - MAX_RECV_BUFFER_SIZE <= n < Boundary(j)
    ensures NextBoundary(n) == Boundary(j)
  {
  }

  /** With packets of up to 4096 bytes, where a packet starts does not matter. */
  lemma ClearWhenAtMost4096(packets: seq<seq<byte>>)
    requires AllFramed(packets) && AllAtMost(packets, MAX_RECV_BUFFER_SIZE - MAX_BUFFER_SIZE)
    ensures Survives(packets) <==> ClearOfBoundaries(packets)
  {
    if Survives(packets) {
      forall i: nat, j: nat | 0 < i <= |packets| && StartAt(packets, i) < Boundary(j) <= |Concat(packets)|
        ensures Boundary(j) - StartAt(packets, i) >= MAX_BUFFER_SIZE
      {
        Around(packets, i - 1);
        assert EndsClear(packets, i - 1);
        if Boundary(j) - StartAt(packets, i) < MAX_BUFFER_SIZE {
          NextBoundaryIs(StartAt(packets, i - 1), j);
        }
      }
    }
    if ClearOfBoundaries(packets) {
      forall i | 0 <= i < |packets|
        ensures HasRoom(packets, i) && EndsClear(packets, i)
      {
        var j := StartAt(packets, i) / MAX_RECV_BUFFER_SIZE + 1;
        NextBoundaryIs(StartAt(packets, i), j);
      }
    }
  }

  /** The packet in which the stream passes `b`. */
  lemma {:induction false} Crossing(packets: seq<seq<byte>>, k: nat, b: nat) returns (i: nat)
    requires 0 < b && k <= |packets| && b <= StartAt(packets, k)
    ensures i < k && StartAt(packets, i) < b <= StartAt(packets, i + 1)
  {
    if k > 0 && StartAt(packets, k - 1) < b {
      i := k - 1;
    } else {
      assert packets[..0] == [];
      i := Crossing(packets, k - 1, b);
    }
  }

  /** With packets of fewer than 4096 bytes, those are the streams that never come round. */
  lemma SurvivesWhenShort(packets: seq<seq<byte>>)
    requires AllFramed(packets) && AllAtMost(packets, MAX_BUFFER_SIZE - 1)
    ensures Survives(packets) <==> |Concat(packets)| < 8192
  {
    if |Concat(packets)| >= MAX_RECV_BUFFER_SIZE {
      var i := EarlyEnd(packets);
    } else {
      assert forall i :: 0 <= i < |packets| ==> HasRoom(packets, i) && EndsClear(packets, i);
    }
  }

  /** The packet before the one that goes on past the first boundary ends close before it. */
  lemma EarlyEnd(packets: seq<seq<byte>>) returns (i: nat)
    requires AllFramed(packets) && AllAtMost(packets, MAX_BUFFER_SIZE - 1)
    requires |Concat(packets)| >= MAX_RECV_BUFFER_SIZE
    ensures i < |packets| && StartAt(packets, i + 1) < MAX_RECV_BUFFER_SIZE && !EndsClear(packets, i)
  {
    assert packets[..|packets|] == packets;
    var k := Crossing(packets, |packets|, MAX_RECV_BUFFER_SIZE);
    Around(packets, k);
    assert packets[..0] == [];
    i := k - 1;
    Around(packets, i);
    NextBoundaryIs(StartAt(packets, i), 1);
  }

  /** A cutting of such a stream after which the code's outcome is undefined. */
  lemma BreakingStream(packets: seq<seq<byte>>) returns (chunks: seq<seq<byte>>)
    requires AllFramed(packets) && AllAtMost(packets, MAX_BUFFER_SIZE - 1)
    requires |Concat(packets)| >= MAX_RECV_BUFFER_SIZE
    ensures CutOf(packets, chunks) && AcceptAll(chunks).status.Undefined?
  {
    var i := EarlyEnd(packets);
    chunks := EarlyCut(packets, i);
  }

  // ----- what a bad completion costs -----

  /** The bytes that the code still has: dispatched or buffered. */
  function Kept(s: Inbox): nat {
    |Concat(s.packets)| + |s.rest|
  }

  /** A completion never makes bytes, and a session that is not open stays so. */
  lemma AcceptKeeps(s: Inbox, chunk: seq<byte>)
    ensures !s.status.Open? ==> Accept(s, chunk) == s
    ensures Accept(s, chunk).status.Open? ==> Kept(Accept(s, chunk)) <= Kept(s) + |chunk|
  {
    if s.status.Open? && Accept(s, chunk).status.Open? {
      var buffered := Buffered(s, chunk);
      var tail := AssembleSound(buffered);
      ConcatAppend(s.packets, Assemble(buffered).packets);
    }
  }

  lemma {:induction false} AllKept(chunks: seq<seq<byte>>)
    ensures AcceptAll(chunks).status.Open? ==> Kept(AcceptAll(chunks)) <= |Concat(chunks)|
  {
    if chunks != [] {
      var init, last := chunks[..|chunks| - 1], chunks[|chunks| - 1];
      assert chunks == init + [last];
      ConcatSnoc(init, last);
      AllKept(init);
      AcceptKeeps(AcceptAll(init), last);
    }
  }

  /** Once a completion was bad, the session is no longer open or a byte is missing for good. */
  lemma {:induction false} BadCostsBytes(chunks: seq<seq<byte>>)
    requires !AllGood(chunks)
    ensures AcceptAll(chunks).status.Open? ==> Kept(AcceptAll(chunks)) < |Concat(chunks)|
  {
    var init, last := chunks[..|chunks| - 1], chunks[|chunks| - 1];
    assert chunks == init + [last];
    ConcatSnoc(init, last);
    AcceptKeeps(AcceptAll(init), last);
    if AllGood(init) {
      AllKept(init);
      AgreesExactlyWhenGood(init);
      BadStepCosts(AcceptAll(init), ReceiveAll(init), last);
    } else {
      BadCostsBytes(init);
    }
  }

  lemma BadStepCosts(s: Inbox, t: Stream, chunk: seq<byte>)
    requires InStep(s, t) && !GoodCompletion(t, chunk)
    ensures Accept(s, chunk).status.Open? ==> Kept(Accept(s, chunk)) == Kept(s) && chunk != []
  {
    if !Fits(t.rest, chunk) {
      AssembleStuck(t.rest);
      assert s.packets + [] == s.packets;
    }
  }
}
