/**
 * End to end: the send side of one session, the bytes of the connection, cut into receive completions
 * anywhere, and the receive side of the other.
 */
module Delivery {
  import opened Bytes
  import opened Framing
  import opened Receiver
  import opened ReceiverRuns
  import opened Cuttings
  import S = Sending
  import P = Packets

  datatype Link = Link(sender: S.Sender, chunks: seq<seq<byte>>, inbox: Inbox)

  datatype Action = Send(a: S.Action) | Deliver(n: nat)

  const START := Link(S.Begin(S.IDLE_OUTBOX), [], EMPTY_INBOX)

  /** Bytes can be delivered once they are on the wire, up to the length of the posted buffer at a time. */
  predicate Enabled(l: Link, a: Action) {
    match a
    case Send(b) => S.Enabled(l.sender, b)
    case Deliver(n) =>
      0 < n <= MAX_BUFFER_SIZE && |Concat(l.chunks)| + n <= |l.sender.wire|
  }

  function Arriving(l: Link, n: nat): seq<byte>
    requires Enabled(l, Deliver(n))
  {
    l.sender.wire[|Concat(l.chunks)|..][..n]
  }

  function Next(l: Link, a: Action): Link
    requires Enabled(l, a)
  {
    match a
    case Send(b) => l.(sender := S.Next(l.sender, b))
    case Deliver(n) =>
      l.(chunks := l.chunks + [Arriving(l, n)], inbox := Accept(l.inbox, Arriving(l, n)))
  }

  predicate LegalRun(acts: seq<Action>)
    decreases acts, 0
  {
    acts == [] || (LegalRun(acts[..|acts| - 1]) && Enabled(Run(acts[..|acts| - 1]), acts[|acts| - 1]))
  }

  function Run(acts: seq<Action>): Link
    requires LegalRun(acts)
    decreases acts, 1
  {
    if acts == [] then START else Next(Run(acts[..|acts| - 1]), acts[|acts| - 1])
  }

  ghost predicate Inv(l: Link) {
    && S.Inv(l.sender)
    && [] !in l.chunks
    && (forall i :: 0 <= i < |l.chunks| ==> |l.chunks[i]| <= MAX_BUFFER_SIZE)
    && Concat(l.chunks) <= l.sender.wire
    && l.inbox == AcceptAll(l.chunks)
  }

  lemma StepInv(l: Link, a: Action)
    requires Inv(l) && Enabled(l, a)
    ensures Inv(Next(l, a))
  {
    match a
    case Send(b) => SendInv(l, b);
    case Deliver(n) =>
      var chunk := Arriving(l, n);
      ConcatSnoc(l.chunks, chunk);
      assert (l.chunks + [chunk])[..|l.chunks|] == l.chunks;
      assert l.sender.wire == Concat(l.chunks) + l.sender.wire[|Concat(l.chunks)|..];
  }

  lemma SendInv(l: Link, b: S.Action)
    requires Inv(l) && Enabled(l, Send(b))
    ensures Inv(Next(l, Send(b)))
  {
    S.StepInv(l.sender, b);
    assert l.sender.wire <= S.Next(l.sender, b).wire;
  }

  lemma {:induction false} RunInv(acts: seq<Action>)
    requires LegalRun(acts)
    ensures Inv(Run(acts))
    decreases |acts|
  {
    if acts != [] {
      RunInv(acts[..|acts| - 1]);
      StepInv(Run(acts[..|acts| - 1]), acts[|acts| - 1]);
    } else {
      assert Concat([]) == [];
    }
  }

  lemma RunSnoc(acts: seq<Action>, a: Action)
    requires LegalRun(acts) && Enabled(Run(acts), a)
    ensures LegalRun(acts + [a]) && Run(acts + [a]) == Next(Run(acts), a)
  {
    assert (acts + [a])[..|acts + [a]| - 1] == acts;
  }

  /**
   * Which runs there are: in every run, whatever the send side is doing, the next completion brings any
   * number of the bytes that are on the way, up to 4096 of them and at least one.
   */
  lemma DeliversAnytime(acts: seq<Action>, n: nat)
    requires LegalRun(acts)
    ensures Concat(Run(acts).chunks) <= Run(acts).sender.wire
    ensures LegalRun(acts + [Deliver(n)])
       <==> 0 < n <= 4096 && n <= |Run(acts).sender.wire| - |Concat(Run(acts).chunks)|
  {
    RunInv(acts);
    assert (acts + [Deliver(n)])[..|acts + [Deliver(n)]| - 1] == acts;
  }

  /** And whatever has arrived or not, the send side goes on: what it can do by itself, it can do here. */
  lemma SendsAnytime(acts: seq<Action>, b: S.Action)
    requires LegalRun(acts)
    ensures LegalRun(acts + [Send(b)]) <==> S.LegalRun(START.sender, OfSender(acts) + [b])
  {
    SenderAlone(acts);
    assert (acts + [Send(b)])[..|acts + [Send(b)]| - 1] == acts;
    assert (OfSender(acts) + [b])[..|OfSender(acts) + [b]| - 1] == OfSender(acts);
  }

  /** What the send side does in a run. */
  function OfSender(acts: seq<Action>): seq<S.Action> {
    if acts == [] then []
    else OfSender(acts[..|acts| - 1]) + if acts[|acts| - 1].Send? then [acts[|acts| - 1].a] else []
  }

  lemma {:induction false} SenderAlone(acts: seq<Action>)
    requires LegalRun(acts)
    ensures S.LegalRun(START.sender, OfSender(acts))
    ensures S.Run(START.sender, OfSender(acts)) == Run(acts).sender
  {
    if acts != [] {
      var init, last := acts[..|acts| - 1], acts[|acts| - 1];
      SenderAlone(init);
      if last.Send? {
        S.RunSnoc(START.sender, OfSender(init), last.a);
      } else {
        assert OfSender(init) + [] == OfSender(init);
      }
    }
  }

  /** The sender is idle and everything it sent has arrived. */
  predicate Quiet(l: Link) {
    !l.sender.closed && !l.sender.out.sending && Concat(l.chunks) == l.sender.wire
  }

  /** The receiver has dispatched a prefix of the packets sent, and all of them when the link is quiet. */
  predicate Served(l: Link) {
    && l.inbox.status.Open?
    && l.inbox.packets <= l.sender.enqueued
    && (Quiet(l) ==> l.inbox.packets == l.sender.enqueued && l.inbox.rest == [])
  }

  /** In every state the arrived bytes mean a prefix of the packets sent, and all of them in the end. */
  lemma StreamDelivered(l: Link)
    requires Inv(l) && AllFramed(l.sender.enqueued)
    ensures var t := ReceiveAll(l.chunks);
            && !t.closed
            && t.packets <= l.sender.enqueued
            && (Quiet(l) ==> t == Stream(l.sender.enqueued, [], false))
  {
    ChunkingIndependence(l.chunks);
    AssemblePrefix(l.sender.enqueued, Concat(l.chunks));
    if Quiet(l) {
      assert l.sender.wire + [] == l.sender.wire;
    }
  }

  /** The documented receiver, end to end: this holds in every reachable state, however the bytes are cut. */
  lemma StreamEndToEnd(acts: seq<Action>)
    requires LegalRun(acts) && AllFramed(Run(acts).sender.enqueued)
    ensures var l, t := Run(acts), ReceiveAll(Run(acts).chunks);
            && !t.closed
            && t.packets <= l.sender.enqueued
            && (Quiet(l) ==> t == Stream(l.sender.enqueued, [], false))
  {
    RunInv(acts);
    StreamDelivered(Run(acts));
  }

  /**
   * End to end: as long as every completion is good, the receiver has dispatched a prefix of the
   * packets sent, each once and in order, and all of them when the link is quiet.
   */
  lemma EndToEnd(acts: seq<Action>)
    requires LegalRun(acts) && AllFramed(Run(acts).sender.enqueued)
    requires AllGood(Run(acts).chunks)
    ensures Served(Run(acts))
  {
    RunInv(acts);
    StreamDelivered(Run(acts));
    AgreesExactlyWhenGood(Run(acts).chunks);
  }

  /** The handlers at the receiver have been called for a prefix of the packets meant for them. */
  lemma HandlersInOrder(acts: seq<Action>, ids: set<nat>)
    requires LegalRun(acts) && AllFramed(Run(acts).sender.enqueued)
    requires AllGood(Run(acts).chunks)
    ensures Handled(ids, Run(acts).inbox.packets) <= Handled(ids, Run(acts).sender.enqueued)
  {
    EndToEnd(acts);
    var got, sent := Run(acts).inbox.packets, Run(acts).sender.enqueued;
    assert sent == got + sent[|got|..];
    HandledAppend(ids, got, sent[|got|..]);
  }

  // ----- the packets of the protocol -----

  /** No completion so far has ended a packet early. */
  predicate NoEarlyEnd(chunks: seq<seq<byte>>) {
    chunks == [] ||
    var init, last := chunks[..|chunks| - 1], chunks[|chunks| - 1];
    NoEarlyEnd(init) && !EndsEarly(Position(ReceiveAll(init)), ReceiveAll(init).rest + last)
  }

  /** For packets short enough, room is never the problem. */
  lemma {:induction false} OnlyEarlyEndsMatter(packets: seq<seq<byte>>, chunks: seq<seq<byte>>)
    requires AllFramed(packets) && AllAtMost(packets, MAX_RECV_BUFFER_SIZE - MAX_BUFFER_SIZE)
    requires [] !in chunks && Concat(chunks) <= Concat(packets)
    requires forall i :: 0 <= i < |chunks| ==> |chunks[i]| <= MAX_BUFFER_SIZE
    ensures AllGood(chunks) <==> NoEarlyEnd(chunks)
  {
    if chunks != [] {
      var init, last := chunks[..|chunks| - 1], chunks[|chunks| - 1];
      assert chunks == init + [last];
      ConcatSnoc(init, last);
      OnlyEarlyEndsMatter(packets, init);
      SmallPacketsFit(packets, init, last);
      ChunkingIndependence(init);
      AssemblePrefix(packets, Concat(init));
    }
  }

  function EncodeAll(messages: seq<P.Packet>): (r: seq<seq<byte>>)
    requires forall i :: 0 <= i < |messages| ==> P.Valid(messages[i])
    ensures |r| == |messages|
    ensures forall i :: 0 <= i < |messages| ==> r[i] == P.Encode(messages[i])
  {
    seq(|messages|, i requires 0 <= i < |messages| => P.Encode(messages[i]))
  }

  lemma {:induction false} EncodedAreSmall(messages: seq<P.Packet>)
    requires forall i :: 0 <= i < |messages| ==> P.Valid(messages[i])
    ensures AllFramed(EncodeAll(messages))
    ensures AllAtMost(EncodeAll(messages), MAX_RECV_BUFFER_SIZE - MAX_BUFFER_SIZE)
    ensures AllAtMost(EncodeAll(messages), MAX_BUFFER_SIZE - 1)
  {
    forall i | 0 <= i < |messages|
      ensures Framed(EncodeAll(messages)[i]) && |EncodeAll(messages)[i]| <= 1312
    {
      P.EncodedIsFramed(messages[i]);
    }
  }

  /**
   * Typed delivery: when protocol packets are sent and none ends early, what the receiver dispatches
   * decodes to a prefix of the packets sent, and to all of them when the link is quiet.
   */
  lemma MessagesDelivered(acts: seq<Action>, messages: seq<P.Packet>, c: P.Channel)
    requires LegalRun(acts)
    requires forall i :: 0 <= i < |messages| ==> P.Valid(messages[i]) && P.ChannelOf(messages[i].kind) == c
    requires Run(acts).sender.enqueued == EncodeAll(messages)
    requires NoEarlyEnd(Run(acts).chunks)
    ensures var l := Run(acts);
            && l.inbox.status.Open?
            && |l.inbox.packets| <= |messages|
            && (forall i :: 0 <= i < |l.inbox.packets| ==> P.Decode(c, l.inbox.packets[i]) == P.Some(messages[i]))
            && (Quiet(l) ==> |l.inbox.packets| == |messages|)
  {
    var l := Run(acts);
    RunInv(acts);
    EncodedAreSmall(messages);
    OnlyEarlyEndsMatter(l.sender.enqueued, l.chunks);
    EndToEnd(acts);
    forall i | 0 <= i < |l.inbox.packets|
      ensures P.Decode(c, l.inbox.packets[i]) == P.Some(messages[i])
    {
      P.DecodeEncode(messages[i]);
    }
  }

  // ----- one packet at a time -----

  /** The sender passes on a packet only when all earlier ones have been dispatched at the other end. */
  predicate Lockstep(acts: seq<Action>)
    requires LegalRun(acts)
  {
    acts == [] ||
    var init, last := acts[..|acts| - 1], acts[|acts| - 1];
    && Lockstep(init)
    && (last.Send? && last.a.Enqueue? ==> Run(init).inbox.packets == Run(init).sender.enqueued)
  }

  /** At most one packet is on its way. */
  predicate OneOut(l: Link) {
    l.inbox.packets <= l.sender.enqueued && |l.sender.enqueued| <= |l.inbox.packets| + 1
  }

  lemma EnqueuedGrows(s: S.Sender, b: S.Action)
    requires S.Enabled(s, b)
    ensures s.enqueued <= S.Next(s, b).enqueued
    ensures !b.Enqueue? ==> S.Next(s, b).enqueued == s.enqueued
  {
  }

  /** Where a connection stands while all is good. */
  lemma Standing(l: Link)
    requires Inv(l) && AllFramed(l.sender.enqueued) && AllGood(l.chunks)
    ensures var t := ReceiveAll(l.chunks);
            && !t.closed
            && t.packets == l.inbox.packets
            && Concat(t.packets) + t.rest == Concat(l.chunks)
  {
    AgreesExactlyWhenGood(l.chunks);
    StreamDelivered(l);
    ChunkingIndependence(l.chunks);
    var tail := AssembleSound(Concat(l.chunks));
  }

  /** The next bytes are more of what was sent. */
  lemma ArrivingIsSent(l: Link, n: nat)
    requires Inv(l) && Enabled(l, Deliver(n))
    ensures Concat(l.chunks) + Arriving(l, n) <= Concat(l.sender.enqueued)
  {
    StepInv(l, Deliver(n));
    ConcatSnoc(l.chunks, Arriving(l, n));
    assert Concat(l.chunks) + Arriving(l, n) <= l.sender.wire;
  }

  /** What is buffered after the next completion is part of the one packet on its way. */
  lemma OneOutIsGood(l: Link, n: nat)
    requires Inv(l) && OneOut(l) && Enabled(l, Deliver(n))
    requires AllFramed(l.sender.enqueued) && AllAtMost(l.sender.enqueued, MAX_RECV_BUFFER_SIZE - 1)
    requires AllGood(l.chunks)
    ensures GoodCompletion(ReceiveAll(l.chunks), Arriving(l, n))
  {
    var t, chunk := ReceiveAll(l.chunks), Arriving(l, n);
    Standing(l);
    ArrivingIsSent(l, n);
    assert Concat(t.packets) + (t.rest + chunk) == Concat(l.chunks) + chunk;
    InsideOnePacket(l.sender.enqueued, t.packets, t.rest + chunk);
    OneAtATimeIsGood(t, chunk);
  }

  lemma WireIsSent(l: Link)
    requires Inv(l)
    ensures Concat(l.chunks) <= Concat(l.sender.enqueued)
  {
  }

  lemma {:induction false} InsideOnePacket(sent: seq<seq<byte>>, got: seq<seq<byte>>, buffered: seq<byte>)
    requires AllFramed(sent) && got <= sent && |sent| <= |got| + 1
    requires AllAtMost(sent, MAX_RECV_BUFFER_SIZE - 1)
    requires Concat(got) + buffered <= Concat(sent)
    ensures |buffered| < PACKET_HEADER_SIZE || |buffered| <= AnnouncedSize(buffered)
    ensures |buffered| < MAX_RECV_BUFFER_SIZE
  {
    if sent == got {
      assert |buffered| == 0;
    } else {
      var p := sent[|got|];
      assert sent == got + [p];
      ConcatSnoc(got, p);
      assert buffered == Concat(sent)[|Concat(got)|..][..|buffered|] == p[..|buffered|];
    }
  }

  lemma {:induction false} LockstepIsGood(acts: seq<Action>)
    requires LegalRun(acts) && Lockstep(acts)
    requires AllFramed(Run(acts).sender.enqueued)
    requires AllAtMost(Run(acts).sender.enqueued, MAX_RECV_BUFFER_SIZE - 1)
    ensures AllGood(Run(acts).chunks) && OneOut(Run(acts))
    decreases |acts|
  {
    if acts != [] {
      var init, last := acts[..|acts| - 1], acts[|acts| - 1];
      var m := Run(init);
      if last.Send? {
        EnqueuedGrows(m.sender, last.a);
      }
      assert m.sender.enqueued <= Run(acts).sender.enqueued;
      LockstepIsGood(init);
      RunInv(init);
      if last.Deliver? {
        OneOutIsGood(m, last.n);
        assert (m.chunks + [Arriving(m, last.n)])[..|m.chunks|] == m.chunks;
        GrowsOnly(m.inbox, Arriving(m, last.n));
      }
      EndToEnd(acts);
    }
  }

  lemma GrowsOnly(s: Inbox, chunk: seq<byte>)
    ensures s.packets <= Accept(s, chunk).packets
  {
  }

  /**
   * Request and response: when the sender waits for each packet to be dispatched, the code delivers
   * everything that fits the ring, whatever the interleaving of the send side and the cutting of the
   * stream.
   */
  lemma LockstepDelivery(acts: seq<Action>)
    requires LegalRun(acts) && Lockstep(acts)
    requires AllFramed(Run(acts).sender.enqueued)
    requires AllAtMost(Run(acts).sender.enqueued, MAX_RECV_BUFFER_SIZE - 1)
    ensures Served(Run(acts))
  {
    LockstepIsGood(acts);
    EndToEnd(acts);
  }

  // ----- every interleaving and every cutting -----

  /** That is so in every run in which exactly these packets are sent. */
  ghost predicate AlwaysServed(packets: seq<seq<byte>>) {
    forall acts :: LegalRun(acts) && Run(acts).sender.enqueued == packets ==> Served(Run(acts))
  }

  function Sends(acts: seq<S.Action>): seq<Action> {
    seq(|acts|, i requires 0 <= i < |acts| => Send(acts[i]))
  }

  /** After `acts`, these completions. */
  function ThenDeliver(acts: seq<Action>, chunks: seq<seq<byte>>): seq<Action> {
    if chunks == [] then acts
    else ThenDeliver(acts, chunks[..|chunks| - 1]) + [Deliver(|chunks[|chunks| - 1]|)]
  }

  lemma {:induction false} SendsRun(acts: seq<S.Action>)
    requires S.LegalRun(S.Begin(S.IDLE_OUTBOX), acts)
    ensures LegalRun(Sends(acts))
    ensures Run(Sends(acts)) == Link(S.Run(S.Begin(S.IDLE_OUTBOX), acts), [], EMPTY_INBOX)
  {
    if acts != [] {
      var init, last := acts[..|acts| - 1], acts[|acts| - 1];
      SendsRun(init);
      assert Sends(acts) == Sends(init) + [Send(last)];
      RunSnoc(Sends(init), Send(last));
    }
  }

  lemma {:induction false} DeliversRun(sent: seq<Action>, sender: S.Sender, chunks: seq<seq<byte>>)
    requires LegalRun(sent) && Run(sent) == Link(sender, [], EMPTY_INBOX)
    requires AllPieces(chunks) && Concat(chunks) <= sender.wire
    ensures LegalRun(ThenDeliver(sent, chunks))
    ensures Run(ThenDeliver(sent, chunks)) == Link(sender, chunks, AcceptAll(chunks))
  {
    if chunks != [] {
      var init, last := chunks[..|chunks| - 1], chunks[|chunks| - 1];
      assert chunks == init + [last];
      ConcatSnoc(init, last);
      PiecesInit(init, last);
      DeliversRun(sent, sender, init);
      DeliverNext(ThenDeliver(sent, init), sender, init, last);
    }
  }

  lemma DeliverNext(acts: seq<Action>, sender: S.Sender, init: seq<seq<byte>>, last: seq<byte>)
    requires LegalRun(acts) && Run(acts) == Link(sender, init, AcceptAll(init))
    requires 0 < |last| <= MAX_BUFFER_SIZE && Concat(init) + last <= sender.wire
    ensures LegalRun(acts + [Deliver(|last|)])
    ensures Run(acts + [Deliver(|last|)]) == Link(sender, init + [last], AcceptAll(init + [last]))
  {
    assert sender.wire[|Concat(init)|..][..|last|] == last;
    assert (init + [last])[..|init|] == init;
    RunSnoc(acts, Deliver(|last|));
  }

  /** Every cutting of a stream of packets occurs in a run of the link. */
  function RunOf(packets: seq<seq<byte>>, chunks: seq<seq<byte>>): seq<Action> {
    ThenDeliver(Sends(S.SendEach(packets)), chunks)
  }

  lemma CutIsRun(packets: seq<seq<byte>>, chunks: seq<seq<byte>>)
    requires AllFramed(packets) && CutOf(packets, chunks)
    ensures LegalRun(RunOf(packets, chunks))
    ensures Run(RunOf(packets, chunks)) == Link(S.AtRest(Concat(packets), packets), chunks, AcceptAll(chunks))
  {
    S.SendEachSends(packets);
    SendsRun(S.SendEach(packets));
    DeliversRun(Sends(S.SendEach(packets)), S.AtRest(Concat(packets), packets), chunks);
  }

  lemma RunIsCut(acts: seq<Action>)
    requires LegalRun(acts)
    ensures CutOf(Run(acts).sender.enqueued, Run(acts).chunks)
  {
    RunInv(acts);
    WireIsSent(Run(acts));
  }

  lemma {:induction false} BadStaysBad(chunks: seq<seq<byte>>, more: seq<seq<byte>>)
    requires !AllGood(chunks)
    ensures !AllGood(chunks + more)
  {
    if more == [] {
      assert chunks + more == chunks;
    } else {
      assert (chunks + more)[..|chunks + more| - 1] == chunks + more[..|more| - 1];
      BadStaysBad(chunks, more[..|more| - 1]);
    }
  }

  /** A bad cutting, gone on with to the end of the stream. */
  lemma BadToTheEnd(packets: seq<seq<byte>>) returns (chunks: seq<seq<byte>>)
    requires AllFramed(packets) && !Survives(packets)
    ensures CutOf(packets, chunks) && Concat(chunks) == Concat(packets) && !AllGood(chunks)
  {
    var bad := BreakingCut(packets);
    var more := Pieces(Concat(packets)[|Concat(bad)|..]);
    chunks := bad + more;
    ConcatAppend(bad, more);
    BadStaysBad(bad, more);
  }

  /** Everything has arrived, and something was not dispatched. */
  lemma BadIsNotServed(packets: seq<seq<byte>>, chunks: seq<seq<byte>>)
    requires AllFramed(packets) && CutOf(packets, chunks) && Concat(chunks) == Concat(packets) && !AllGood(chunks)
    ensures LegalRun(RunOf(packets, chunks)) && Run(RunOf(packets, chunks)).sender.enqueued == packets
    ensures !Served(Run(RunOf(packets, chunks)))
  {
    CutIsRun(packets, chunks);
    BadCostsBytes(chunks);
  }

  /**
   * The condition on what is sent alone: the packets are delivered under every interleaving and every
   * cutting if and only if the stream survives every cutting.
   */
  lemma AlwaysServedExactly(packets: seq<seq<byte>>)
    requires AllFramed(packets)
    ensures AlwaysServed(packets) <==> Survives(packets)
  {
    EveryCuttingExactly(packets);
    if Survives(packets) {
      forall acts | LegalRun(acts) && Run(acts).sender.enqueued == packets
        ensures Served(Run(acts))
      {
        RunIsCut(acts);
        EndToEnd(acts);
      }
    } else {
      var chunks := BadToTheEnd(packets);
      BadIsNotServed(packets, chunks);
    }
  }

  /** For packets of the protocol: exactly while everything ever sent stays below the size of the ring. */
  lemma MessagesAlwaysServed(messages: seq<P.Packet>)
    requires forall i :: 0 <= i < |messages| ==> P.Valid(messages[i])
    ensures AlwaysServed(EncodeAll(messages)) <==> |Concat(EncodeAll(messages))| < 8192
  {
    EncodedAreSmall(messages);
    AlwaysServedExactly(EncodeAll(messages));
    SurvivesWhenShort(EncodeAll(messages));
  }

  lemma {:induction false} SameLengths(packets: seq<seq<byte>>, n: nat)
    requires forall i :: 0 <= i < |packets| ==> |packets[i]| == n
    ensures |Concat(packets)| == n * |packets|
  {
    if packets != [] {
      SameLengths(packets[1..], n);
      assert n * |packets| == n + n * |packets[1..]|;
    }
  }

  /** Chat lines of a client: eight always arrive, nine may not. */
  lemma EightChatLines(lines: seq<P.Packet>)
    requires forall i :: 0 <= i < |lines| ==> P.Valid(lines[i]) && lines[i].kind.CpChat?
    ensures AlwaysServed(EncodeAll(lines)) <==> |lines| <= 8
  {
    P.SizeOfKind(P.CpChat);
    SameLengths(EncodeAll(lines), 1004);
    MessagesAlwaysServed(lines);
  }

  /** A run of the link in which nine chat lines lead to an undefined copy. */
  lemma NineChatLines(lines: seq<P.Packet>) returns (acts: seq<Action>)
    requires |lines| == 9 && forall i :: 0 <= i < |lines| ==> P.Valid(lines[i]) && lines[i].kind.CpChat?
    ensures LegalRun(acts) && Run(acts).sender.enqueued == EncodeAll(lines)
    ensures Run(acts).inbox.status.Undefined?
  {
    P.SizeOfKind(P.CpChat);
    SameLengths(EncodeAll(lines), 1004);
    EncodedAreSmall(lines);
    var chunks := BreakingStream(EncodeAll(lines));
    CutIsRun(EncodeAll(lines), chunks);
    acts := RunOf(EncodeAll(lines), chunks);
  }

  // ----- how long a packet a waiting sender may send -----

  /** Every run in which the sender waits and sends packets of up to n bytes is served. */
  ghost predicate LockstepServed(n: nat) {
    forall acts ::
      LegalRun(acts) && Lockstep(acts) && AllFramed(Run(acts).sender.enqueued)
      && AllAtMost(Run(acts).sender.enqueued, n)
      ==> Served(Run(acts))
  }

  lemma {:induction false} OneEnqueueIsLockstep(acts: seq<Action>)
    requires LegalRun(acts)
    requires forall i :: 0 < i < |acts| ==> acts[i].Deliver? || !acts[i].a.Enqueue?
    ensures Lockstep(acts)
  {
    if acts != [] {
      OneEnqueueIsLockstep(acts[..|acts| - 1]);
    }
  }

  lemma {:induction false} OnePacketRun(p: seq<byte>, chunks: seq<seq<byte>>)
    ensures forall i :: 0 < i < |RunOf([p], chunks)| ==>
              RunOf([p], chunks)[i].Deliver? || !RunOf([p], chunks)[i].a.Enqueue?
    ensures RunOf([p], chunks) != []
  {
    if chunks == [] {
      assert [p][..0] == [];
      assert S.SendEach([p]) == [S.Enqueue(p), S.CallSend(true), S.Transfer(0, |p|), S.Complete(0)];
    } else {
      OnePacketRun(p, chunks[..|chunks| - 1]);
    }
  }

  /** A sender of one packet waits, and a packet of 8192 bytes never arrives. */
  lemma FullPacketNotServed() returns (acts: seq<Action>)
    ensures LegalRun(acts) && Lockstep(acts) && !Served(Run(acts))
    ensures AllFramed(Run(acts).sender.enqueued) && AllAtMost(Run(acts).sender.enqueued, MAX_RECV_BUFFER_SIZE)
  {
    var p := ZeroPacket(MAX_RECV_BUFFER_SIZE);
    ConcatTwo(p, p);
    CutIsRun([p], Pieces(p));
    acts := RunOf([p], Pieces(p));
    OnePacketRun(p, Pieces(p));
    OneEnqueueIsLockstep(acts);
    LargestPacket(p, Pieces(p));
  }

  /** A sender that waits is served, exactly: when its packets are shorter than the ring. */
  lemma LockstepExactly(n: nat)
    requires GoodSize(n)
    ensures LockstepServed(n) <==> n < 8192
  {
    if n < MAX_RECV_BUFFER_SIZE {
      forall acts |
        LegalRun(acts) && Lockstep(acts) && AllFramed(Run(acts).sender.enqueued)
        && AllAtMost(Run(acts).sender.enqueued, n)
        ensures Served(Run(acts))
      {
        LockstepDelivery(acts);
      }
    } else {
      var acts := FullPacketNotServed();
    }
  }
}
