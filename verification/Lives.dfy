/**
 * The life of a session: connection after connection on the same object. Session::Init resets neither
 * the send queue nor the sending flag, and Disconnect waits for nothing: a thread on its way to Send,
 * and a send whose completion has not been handled, outlive the connection they belong to.
 */
module Lives {
  import opened Bytes
  import S = Sending

  /**
   * Without a socket; with the next one, while Disconnect is still a no-op because the last one has
   * run and OnAccepted has not; and after OnAccepted.
   */
  datatype Phase = Closed | Attached | Live

  /**
   * `sender` is the send side with the wire of the latest connection and the messages passed to
   * SendPacket while it was live; `late` are sends of earlier connections whose completion has not been
   * handled; `passed` is every message ever passed to SendPacket; `failed` says that the send side ended
   * the latest connection.
   */
  datatype Life = Life(
    phase: Phase,
    sender: S.Sender,
    late: seq<S.Flight>,
    passed: seq<seq<byte>>,
    failed: bool)

  const NEW_LIFE := Life(Closed, S.Begin(S.IDLE_OUTBOX), [], [], false)

  datatype Action =
    | Attach                          // the accepted socket is stored in the session
    | GoLive                          // OnAccepted
    | Own(a: S.Action)                // the send side, on the socket of this connection
    | Refuse                          // a thread on its way to Send finds no socket
    | Pass(message: seq<byte>)        // SendPacket, by a thread that still has the pointer
    | LateTransfer(i: nat, n: nat)    // a send of an earlier connection ends, on the earlier socket
    | LateComplete(i: nat)            // its completion is handled; one of no bytes also stands for an error
    | HangUp                          // Disconnect for any other reason

  predicate Enabled(l: Life, a: Action) {
    match a
    case Attach => l.phase.Closed?
    case GoLive => l.phase.Attached?
    case Own(b) => !l.phase.Closed? && S.Enabled(l.sender, b) && (b.Enqueue? ==> l.phase.Live?)
    case Refuse => l.phase.Closed? && l.sender.posters > 0
    case Pass(_) => !l.phase.Live?
    case LateTransfer(i, n) => i < |l.late| && l.late[i].Posted? && n <= |l.late[i].data|
    case LateComplete(i) => i < |l.late| && l.late[i].Done?
    case HangUp => l.phase.Live?
  }

  function Next(l: Life, a: Action): Life
    requires Enabled(l, a)
  {
    match a
    case Attach =>
      l.(phase := Attached, failed := false,
         sender := S.Sender(l.sender.out, l.sender.posters, [], [], [], false))
    case GoLive => l.(phase := Live)
    case Own(b) => OwnNext(l, b)
    case Refuse => l.(sender := l.sender.(out := S.Post(l.sender.out, false).0, posters := l.sender.posters - 1))
    case Pass(message) =>
      l.(passed := l.passed + [message],
         sender := l.sender.(out := S.Push(l.sender.out, message),
                             posters := l.sender.posters + (if l.sender.out.sending then 0 else 1)))
    case LateTransfer(i, n) => l.(late := l.late[i := S.Done(n)])
    case LateComplete(i) => LateNext(l, i)
    case HangUp => Ended(l)
  }

  function OwnNext(l: Life, b: S.Action): Life
    requires Enabled(l, Own(b))
  {
    var n := S.Next(l.sender, b);
    var m := l.(sender := n.(closed := false), passed := if b.Enqueue? then l.passed + [b.message] else l.passed);
    if n.closed then Disconnected(m) else m
  }

  function LateNext(l: Life, i: nat): Life
    requires Enabled(l, LateComplete(i))
  {
    var m := l.(late := l.late[..i] + l.late[i + 1..]);
    if l.late[i].n == 0 then Disconnected(m)
    else
      var (out, again) := S.Finish(l.sender.out, l.late[i].n);
      m.(sender := l.sender.(out := out, posters := l.sender.posters + (if again then 1 else 0)))
  }

  /** What Disconnect does when the send side calls it: nothing, unless the connection is live. */
  function Disconnected(l: Life): Life {
    if l.phase.Live? then Ended(l).(failed := true) else l
  }

  /** The socket is closed; what was posted on it is now of an earlier connection. */
  function Ended(l: Life): Life {
    l.(phase := Closed, sender := l.sender.(flights := []), late := l.late + l.sender.flights)
  }

  predicate LegalRun(l: Life, acts: seq<Action>)
    decreases acts, 0
  {
    acts == [] || (LegalRun(l, acts[..|acts| - 1]) && Enabled(Run(l, acts[..|acts| - 1]), acts[|acts| - 1]))
  }

  function Run(l: Life, acts: seq<Action>): Life
    requires LegalRun(l, acts)
    decreases acts, 1
  {
    if acts == [] then l else Next(Run(l, acts[..|acts| - 1]), acts[|acts| - 1])
  }

  /** One more action, with the life that it leads to given. */
  lemma StepTo(l: Life, acts: seq<Action>, m: Life, a: Action, next: Life)
    requires LegalRun(l, acts) && Run(l, acts) == m && Enabled(m, a) && Next(m, a) == next
    ensures LegalRun(l, acts + [a]) && Run(l, acts + [a]) == next
  {
    assert (acts + [a])[..|acts + [a]| - 1] == acts;
  }

  // ----- the invariant -----

  /** The session is idle, or something is queued and the flag is set: no lock section leaves anything else. */
  predicate Together(out: S.Outbox) {
    out.queue != [] <==> out.sending
  }

  /** Threads on their way to Send, and sends whose completion has not been handled. */
  function Outstanding(l: Life): nat {
    l.sender.posters + |l.sender.flights| + |l.late|
  }

  /** A send whose completion has not been handled is of the front message. */
  predicate FlightFits(out: S.Outbox, f: S.Flight) {
    out.queue != [] &&
    match f
    case Posted(data) => data == S.Unsent(out.queue[0])
    case Done(n) => n <= |S.Unsent(out.queue[0])|
  }

  /** At most one thread or send is outstanding, of whatever connection, and only while the flag is set. */
  ghost predicate OneOut(l: Life) {
    && !l.sender.closed
    && Together(l.sender.out)
    && S.OffsetsFit(l.sender.out.queue)
    && Outstanding(l) <= (if l.sender.out.sending then 1 else 0)
    && (l.phase.Closed? ==> l.sender.flights == [])
    && (forall f :: f in l.sender.flights || f in l.late ==> FlightFits(l.sender.out, f))
  }

  lemma StepOneOut(l: Life, a: Action)
    requires OneOut(l) && Enabled(l, a)
    ensures OneOut(Next(l, a))
  {
    match a
    case Own(b) => OwnOneOut(l, b);
    case LateComplete(i) => LateOneOut(l, i);
    case Pass(message) => PushFits(l.sender.out, message);
    case LateTransfer(i, n) => assert l.late[i] in l.late;
    case _ =>
  }

  lemma PushFits(out: S.Outbox, message: seq<byte>)
    requires S.OffsetsFit(out.queue)
    ensures S.OffsetsFit(S.Push(out, message).queue)
    ensures out.queue != [] ==> S.Push(out, message).queue[0] == out.queue[0]
  {
  }

  lemma OwnOneOut(l: Life, b: S.Action)
    requires OneOut(l) && Enabled(l, Own(b))
    ensures OneOut(OwnNext(l, b))
  {
    match b
    case Enqueue(message) => EnqueueOneOut(l, message);
    case CallSend(accepted) => CallOneOut(l, accepted);
    case Transfer(i, n) => TransferOneOut(l, i, n);
    case Complete(i) => CompleteOneOut(l, i);
  }

  lemma EnqueueOneOut(l: Life, message: seq<byte>)
    requires OneOut(l) && Enabled(l, Own(S.Enqueue(message)))
    ensures OneOut(OwnNext(l, S.Enqueue(message)))
  {
    PushFits(l.sender.out, message);
  }

  lemma CallOneOut(l: Life, accepted: bool)
    requires OneOut(l) && Enabled(l, Own(S.CallSend(accepted)))
    ensures OneOut(OwnNext(l, S.CallSend(accepted)))
  {
    assert l.sender.flights == [] && l.late == [] && l.sender.posters == 1;
  }

  lemma OnlyFlight(l: Life, i: nat)
    requires OneOut(l) && i < |l.sender.flights|
    ensures i == 0 && |l.sender.flights| == 1 && l.late == [] && l.sender.posters == 0
    ensures FlightFits(l.sender.out, l.sender.flights[0])
    ensures !l.phase.Closed?
  {
    assert l.sender.flights[i] in l.sender.flights;
  }

  lemma TransferOneOut(l: Life, i: nat, n: nat)
    requires OneOut(l) && Enabled(l, Own(S.Transfer(i, n)))
    ensures OneOut(OwnNext(l, S.Transfer(i, n)))
  {
    OnlyFlight(l, i);
    assert OwnNext(l, S.Transfer(i, n)).sender.flights == [S.Done(n)];
  }

  lemma CompleteOneOut(l: Life, i: nat)
    requires OneOut(l) && Enabled(l, Own(S.Complete(i)))
    ensures OneOut(OwnNext(l, S.Complete(i)))
  {
    OnlyFlight(l, i);
    var n := l.sender.flights[0].n;
    assert l.sender.flights[..0] + l.sender.flights[1..] == [];
    if n > 0 {
      S.FinishBacklog(l.sender.out, n);
    }
  }

  lemma LateOneOut(l: Life, i: nat)
    requires OneOut(l) && Enabled(l, LateComplete(i))
    ensures OneOut(LateNext(l, i))
  {
    assert l.late[i] in l.late;
    if l.late[i].n > 0 {
      S.FinishBacklog(l.sender.out, l.late[i].n);
    }
  }

  lemma {:induction false} RunOneOut(acts: seq<Action>)
    requires LegalRun(NEW_LIFE, acts)
    ensures OneOut(Run(NEW_LIFE, acts))
  {
    if acts != [] {
      RunOneOut(acts[..|acts| - 1]);
      StepOneOut(Run(NEW_LIFE, acts[..|acts| - 1]), acts[|acts| - 1]);
    }
  }

  // ----- what a wire carries -----

  predicate IsSuffix(x: seq<byte>, t: seq<byte>) {
    |x| <= |t| && t[|t| - |x|..] == x
  }

  /** `x` stands somewhere in `t` in one piece. */
  ghost predicate IsPiece(x: seq<byte>, t: seq<byte>) {
    exists before, after :: t == before + x + after
  }

  lemma SuffixGrows(x: seq<byte>, t: seq<byte>, more: seq<byte>)
    requires IsSuffix(x, t)
    ensures IsSuffix(x + more, t + more)
  {
  }

  lemma SuffixOfSuffix(x: seq<byte>, y: seq<byte>, t: seq<byte>)
    requires IsSuffix(x + y, t)
    ensures IsSuffix(y, t)
  {
    assert t[|t| - |y|..] == t[|t| - |x + y|..][|x|..];
  }

  lemma PieceGrows(x: seq<byte>, t: seq<byte>, more: seq<byte>)
    requires IsPiece(x, t)
    ensures IsPiece(x, t + more)
  {
    var before, after :| t == before + x + after;
    assert t + more == before + x + (after + more);
  }

  /**
   * `wire` ends with the first `ahead` bytes of the backlog, whose completion has not been handled, and
   * without them it comes just before the backlog at the end of `all`.
   */
  predicate WireFits(wire: seq<byte>, ahead: nat, backlog: seq<byte>, all: seq<byte>) {
    && ahead <= |wire| && ahead <= |backlog|
    && wire == wire[..|wire| - ahead] + backlog[..ahead]
    && IsSuffix(wire[..|wire| - ahead] + backlog, all)
  }

  lemma WireStarts(backlog: seq<byte>, all: seq<byte>)
    requires IsSuffix(backlog, all)
    ensures WireFits([], 0, backlog, all)
  {
    assert [] + backlog == backlog;
  }

  lemma WireWaits(wire: seq<byte>, ahead: nat, backlog: seq<byte>, all: seq<byte>, more: seq<byte>)
    requires WireFits(wire, ahead, backlog, all)
    ensures WireFits(wire, ahead, backlog + more, all + more)
  {
    var settled := wire[..|wire| - ahead];
    SuffixGrows(settled + backlog, all, more);
    assert settled + (backlog + more) == settled + backlog + more;
    assert (backlog + more)[..ahead] == backlog[..ahead];
  }

  lemma WireTakes(wire: seq<byte>, backlog: seq<byte>, all: seq<byte>, n: nat)
    requires WireFits(wire, 0, backlog, all) && n <= |backlog|
    ensures WireFits(wire + backlog[..n], n, backlog, all)
  {
    assert wire[..|wire|] == wire;
    assert (wire + backlog[..n])[..|wire|] == wire;
  }

  lemma WireIsPiece(wire: seq<byte>, ahead: nat, backlog: seq<byte>, all: seq<byte>)
    requires WireFits(wire, ahead, backlog, all)
    ensures IsPiece(wire, all)
  {
    Regroup(wire[..|wire| - ahead], backlog, ahead);
    SuffixIsPiece(wire, backlog[ahead..], all);
  }

  lemma Regroup<T>(a: seq<T>, b: seq<T>, n: nat)
    requires n <= |b|
    ensures a + b == (a + b[..n]) + b[n..]
  {
  }

  lemma SuffixIsPiece(x: seq<byte>, y: seq<byte>, t: seq<byte>)
    requires IsSuffix(x + y, t)
    ensures IsPiece(x, t)
  {
    var before := t[..|t| - |x + y|];
    assert t == before + (x + y);
    assert before + (x + y) == before + x + y;
  }

  lemma WireSettles(wire: seq<byte>, n: nat, backlog: seq<byte>, all: seq<byte>)
    requires WireFits(wire, n, backlog, all)
    ensures WireFits(wire, 0, backlog[n..], all)
  {
    Regroup(wire[..|wire| - n], backlog, n);
    assert wire[..|wire|] == wire;
  }

  lemma WireEnds(wire: seq<byte>, ahead: nat, backlog: seq<byte>, all: seq<byte>)
    requires WireFits(wire, ahead, backlog, all)
    ensures IsSuffix(backlog, all)
  {
    SuffixOfSuffix(wire[..|wire| - ahead], backlog, all);
  }

  lemma BacklogShrinks(backlog: seq<byte>, n: nat, all: seq<byte>)
    requires IsSuffix(backlog, all) && n <= |backlog|
    ensures IsSuffix(backlog[n..], all)
  {
    assert backlog == backlog[..n] + backlog[n..];
    SuffixOfSuffix(backlog[..n], backlog[n..], all);
  }

  /**
   * The backlog is the end of everything passed to SendPacket. While there is a socket, what the wire
   * carries comes just before it, up to the completion still to be handled; it is nothing while a send of
   * an earlier connection is outstanding.
   */
  ghost predicate InOrder(l: Life) {
    && (l.phase.Closed? ==> IsSuffix(S.Backlog(l.sender.out.queue), Concat(l.passed)))
    && (!l.phase.Closed? ==>
          WireFits(l.sender.wire, S.Ahead(l.sender), S.Backlog(l.sender.out.queue), Concat(l.passed)))
    && (!l.phase.Closed? && l.late != [] ==> l.sender.wire == [])
  }

  lemma StepInOrder(l: Life, a: Action)
    requires OneOut(l) && InOrder(l) && Enabled(l, a)
    ensures InOrder(Next(l, a))
  {
    if a.Own? {
      OwnInOrder(l, a.a);
    } else if a.Pass? {
      StrayInOrder(l, a.message);
    } else if a.LateComplete? {
      LateInOrder(l, a.i);
    } else {
      QuietInOrder(l, a);
    }
  }

  /** The actions that leave queue and wire alone, or begin a new wire. */
  lemma QuietInOrder(l: Life, a: Action)
    requires OneOut(l) && InOrder(l) && Enabled(l, a) && !a.Own? && !a.Pass? && !a.LateComplete?
    ensures InOrder(Next(l, a))
  {
    if a.Attach? {
      AttachInOrder(l);
    } else if a.HangUp? {
      EndedInOrder(l);
    } else if a.Refuse? {
      RefuseInOrder(l);
    } else if a.GoLive? {
      GoLiveInOrder(l);
    } else {
      LateTransferInOrder(l, a.i, a.n);
    }
  }

  lemma GoLiveInOrder(l: Life)
    requires InOrder(l) && Enabled(l, GoLive)
    ensures InOrder(Next(l, GoLive))
  {
    SameInOrder(l, Next(l, GoLive));
  }

  lemma LateTransferInOrder(l: Life, i: nat, n: nat)
    requires InOrder(l) && Enabled(l, LateTransfer(i, n))
    ensures InOrder(Next(l, LateTransfer(i, n)))
  {
    SameInOrder(l, Next(l, LateTransfer(i, n)));
  }

  lemma SameInOrder(l: Life, m: Life)
    requires InOrder(l) && m.sender == l.sender && m.passed == l.passed
    requires (m.phase.Closed? <==> l.phase.Closed?) && (m.late == [] <==> l.late == [])
    ensures InOrder(m)
  {
  }

  lemma AttachInOrder(l: Life)
    requires InOrder(l) && l.phase.Closed?
    ensures InOrder(Next(l, Attach))
  {
    WireStarts(S.Backlog(l.sender.out.queue), Concat(l.passed));
    assert S.Ahead(Next(l, Attach).sender) == 0;
  }

  lemma RefuseInOrder(l: Life)
    requires OneOut(l) && InOrder(l) && Enabled(l, Refuse)
    ensures InOrder(Next(l, Refuse))
  {
  }

  lemma EndedInOrder(l: Life)
    requires InOrder(l) && !l.phase.Closed?
    ensures InOrder(Ended(l))
  {
    WireEnds(l.sender.wire, S.Ahead(l.sender), S.Backlog(l.sender.out.queue), Concat(l.passed));
  }

  lemma PassInOrder(l: Life, message: seq<byte>, next: Life)
    requires OneOut(l) && InOrder(l)
    requires next.phase == l.phase && next.late == l.late && next.passed == l.passed + [message]
    requires next.sender.out == S.Push(l.sender.out, message)
    requires next.sender.wire == l.sender.wire && next.sender.flights == l.sender.flights
    ensures InOrder(next)
  {
    var s, all, backlog := l.sender, Concat(l.passed), S.Backlog(l.sender.out.queue);
    ConcatSnoc(l.passed, message);
    S.PushBacklog(s.out.queue, message, 0);
    assert S.Backlog(next.sender.out.queue) == backlog + message;
    if l.phase.Closed? {
      SuffixGrows(backlog, all, message);
    } else {
      WireWaits(s.wire, S.Ahead(s), backlog, all, message);
    }
  }

  lemma OwnInOrder(l: Life, b: S.Action)
    requires OneOut(l) && InOrder(l) && Enabled(l, Own(b))
    ensures InOrder(OwnNext(l, b))
  {
    match b
    case Enqueue(message) => EnqueueInOrder(l, message);
    case CallSend(accepted) => CallInOrder(l, accepted);
    case Transfer(i, n) => TransferInOrder(l, i, n);
    case Complete(i) => CompleteInOrder(l, i);
  }

  lemma StrayInOrder(l: Life, message: seq<byte>)
    requires OneOut(l) && InOrder(l) && Enabled(l, Pass(message))
    ensures InOrder(Next(l, Pass(message)))
  {
    PassInOrder(l, message, Next(l, Pass(message)));
  }

  lemma EnqueueInOrder(l: Life, message: seq<byte>)
    requires OneOut(l) && InOrder(l) && Enabled(l, Own(S.Enqueue(message)))
    ensures InOrder(OwnNext(l, S.Enqueue(message)))
  {
    PassInOrder(l, message, OwnNext(l, S.Enqueue(message)));
  }

  lemma CallInOrder(l: Life, accepted: bool)
    requires OneOut(l) && InOrder(l) && Enabled(l, Own(S.CallSend(accepted)))
    ensures InOrder(OwnNext(l, S.CallSend(accepted)))
  {
    var waiting := l.(sender := l.sender.(posters := l.sender.posters - 1));
    assert l.sender.flights == [] && l.sender.out.queue != [];
    if accepted {
      var data := S.Unsent(l.sender.out.queue[0]);
      assert OwnNext(l, S.CallSend(true)) == waiting.(sender := waiting.sender.(flights := [S.Posted(data)]));
    } else {
      assert OwnNext(l, S.CallSend(false)) == Disconnected(waiting);
      EndedInOrder(waiting);
    }
  }

  lemma FrontOfBacklog(out: S.Outbox, data: seq<byte>, n: nat)
    requires FlightFits(out, S.Posted(data)) && n <= |data|
    ensures n <= |S.Backlog(out.queue)| && data[..n] == S.Backlog(out.queue)[..n]
  {
  }

  lemma TransferNext(l: Life, i: nat, n: nat)
    requires OneOut(l) && Enabled(l, Own(S.Transfer(i, n)))
    ensures n <= |S.Backlog(l.sender.out.queue)| && S.Ahead(l.sender) == 0 && l.late == [] && !l.phase.Closed?
    ensures OwnNext(l, S.Transfer(i, n))
         == l.(sender := l.sender.(flights := [S.Done(n)],
                                   wire := l.sender.wire + S.Backlog(l.sender.out.queue)[..n]))
  {
    OnlyFlight(l, i);
    FrontOfBacklog(l.sender.out, l.sender.flights[0].data, n);
  }

  lemma TransferInOrder(l: Life, i: nat, n: nat)
    requires OneOut(l) && InOrder(l) && Enabled(l, Own(S.Transfer(i, n)))
    ensures InOrder(OwnNext(l, S.Transfer(i, n)))
  {
    TransferNext(l, i, n);
    TakesInOrder(l, n);
  }

  lemma TakesInOrder(l: Life, n: nat)
    requires InOrder(l) && !l.phase.Closed? && l.late == [] && S.Ahead(l.sender) == 0
    requires n <= |S.Backlog(l.sender.out.queue)|
    ensures InOrder(l.(sender := l.sender.(flights := [S.Done(n)],
                                           wire := l.sender.wire + S.Backlog(l.sender.out.queue)[..n])))
  {
    WireTakes(l.sender.wire, S.Backlog(l.sender.out.queue), Concat(l.passed), n);
  }

  /** After a completion of bytes, with the thread that goes on to Send, if there is one. */
  lemma CompleteNext(l: Life, i: nat)
    requires OneOut(l) && Enabled(l, Own(S.Complete(i)))
    ensures var n, m := S.Ahead(l.sender), OwnNext(l, S.Complete(i));
            && |S.Backlog(l.sender.out.queue)| >= n && l.late == [] && !l.phase.Closed?
            && (n == 0 ==> m == Disconnected(l.(sender := l.sender.(flights := []))))
            && (n > 0 ==>
                  && m.phase == l.phase && m.late == [] && m.passed == l.passed
                  && m.sender.flights == [] && m.sender.wire == l.sender.wire
                  && S.Backlog(m.sender.out.queue) == S.Backlog(l.sender.out.queue)[n..])
  {
    OnlyFlight(l, i);
    if l.sender.flights[0].n > 0 {
      S.FinishBacklog(l.sender.out, l.sender.flights[0].n);
    }
  }

  lemma CompleteInOrder(l: Life, i: nat)
    requires OneOut(l) && InOrder(l) && Enabled(l, Own(S.Complete(i)))
    ensures InOrder(OwnNext(l, S.Complete(i)))
  {
    CompleteNext(l, i);
    var backlog := S.Backlog(l.sender.out.queue);
    if S.Ahead(l.sender) == 0 {
      DropsFlight(l);
    } else {
      WireSettles(l.sender.wire, S.Ahead(l.sender), backlog, Concat(l.passed));
    }
  }

  lemma DropsFlight(l: Life)
    requires InOrder(l) && !l.phase.Closed? && S.Ahead(l.sender) == 0
    ensures InOrder(Disconnected(l.(sender := l.sender.(flights := []))))
  {
    if l.phase.Live? {
      EndedInOrder(l);
    }
  }

  lemma LateInOrder(l: Life, i: nat)
    requires OneOut(l) && InOrder(l) && Enabled(l, LateComplete(i))
    ensures InOrder(LateNext(l, i))
  {
    var s, backlog, n := l.sender, S.Backlog(l.sender.out.queue), l.late[i].n;
    assert l.late[i] in l.late && i == 0;
    if n == 0 {
      if l.phase.Live? {
        EndedInOrder(l);
      }
    } else {
      S.FinishBacklog(s.out, n);
      if l.phase.Closed? {
        BacklogShrinks(backlog, n, Concat(l.passed));
      } else {
        WireEnds(s.wire, 0, backlog, Concat(l.passed));
        BacklogShrinks(backlog, n, Concat(l.passed));
        WireStarts(backlog[n..], Concat(l.passed));
      }
    }
  }

  lemma {:induction false} RunInOrder(acts: seq<Action>)
    requires LegalRun(NEW_LIFE, acts)
    ensures OneOut(Run(NEW_LIFE, acts)) && InOrder(Run(NEW_LIFE, acts))
  {
    if acts != [] {
      RunInOrder(acts[..|acts| - 1]);
      StepOneOut(Run(NEW_LIFE, acts[..|acts| - 1]), acts[|acts| - 1]);
      StepInOrder(Run(NEW_LIFE, acts[..|acts| - 1]), acts[|acts| - 1]);
    }
  }

  /** A closed session keeps what its last wire carried, and what is passed to SendPacket only grows. */
  lemma StepKeepsPiece(l: Life, a: Action)
    requires Enabled(l, a) && l.phase.Closed? && !a.Attach? && IsPiece(l.sender.wire, Concat(l.passed))
    ensures IsPiece(Next(l, a).sender.wire, Concat(Next(l, a).passed))
  {
    if a.Pass? {
      ConcatSnoc(l.passed, a.message);
      PieceGrows(l.sender.wire, Concat(l.passed), a.message);
    }
  }

  /** A connection that ends with this step carries what it carried before. */
  lemma EndKeepsWire(l: Life, a: Action)
    requires Enabled(l, a) && !l.phase.Closed? && Next(l, a).phase.Closed?
    ensures Next(l, a).sender.wire == l.sender.wire && Next(l, a).passed == l.passed
  {
  }

  /**
   * In any life of a session, every connection carries a piece of everything that was ever passed to
   * SendPacket, whoever it was meant for: nothing inside it is lost, repeated or reordered.
   */
  lemma {:induction false} WireInOnePiece(acts: seq<Action>)
    requires LegalRun(NEW_LIFE, acts)
    ensures IsPiece(Run(NEW_LIFE, acts).sender.wire, Concat(Run(NEW_LIFE, acts).passed))
  {
    if acts == [] {
      assert [] + [] + [] == Concat([]);
    } else if !Run(NEW_LIFE, acts).phase.Closed? {
      RunInOrder(acts);
      WireOfOpen(Run(NEW_LIFE, acts));
    } else {
      var init, last := acts[..|acts| - 1], acts[|acts| - 1];
      WireInOnePiece(init);
      if Run(NEW_LIFE, init).phase.Closed? {
        StepKeepsPiece(Run(NEW_LIFE, init), last);
      } else {
        EndKeepsWire(Run(NEW_LIFE, init), last);
      }
    }
  }

  lemma WireOfOpen(l: Life)
    requires InOrder(l) && !l.phase.Closed?
    ensures IsPiece(l.sender.wire, Concat(l.passed))
  {
    WireIsPiece(l.sender.wire, S.Ahead(l.sender), S.Backlog(l.sender.out.queue), Concat(l.passed));
  }

  // ----- which lives there are -----

  lemma MayFollow(acts: seq<Action>, a: Action)
    requires LegalRun(NEW_LIFE, acts)
    ensures LegalRun(NEW_LIFE, acts + [a]) <==> Enabled(Run(NEW_LIFE, acts), a)
  {
    assert (acts + [a])[..|acts + [a]| - 1] == acts;
  }

  /** SendPacket while the connection is live, or by a thread that still has the pointer. */
  function Passing(l: Life, message: seq<byte>): Action {
    if l.phase.Live? then Own(S.Enqueue(message)) else Pass(message)
  }

  /** The call of Send, by the thread that is on its way there. */
  function Posting(l: Life, accepted: bool): Action {
    if l.phase.Closed? then Refuse else Own(S.CallSend(accepted))
  }

  /** A posted send ends, and its completion is handled, on the connection it belongs to. */
  function Ending(l: Life, n: nat): Action {
    if l.late == [] then Own(S.Transfer(0, n)) else LateTransfer(0, n)
  }

  function Completing(l: Life): Action {
    if l.late == [] then Own(S.Complete(0)) else LateComplete(0)
  }

  /**
   * In every life: a message can be passed at any moment; the next socket comes when the last one is
   * closed, and OnAccepted after that; a live connection can end at any moment.
   */
  lemma Unhindered(acts: seq<Action>, message: seq<byte>)
    requires LegalRun(NEW_LIFE, acts)
    ensures LegalRun(NEW_LIFE, acts + [Passing(Run(NEW_LIFE, acts), message)])
    ensures LegalRun(NEW_LIFE, acts + [Attach]) <==> Run(NEW_LIFE, acts).phase.Closed?
    ensures LegalRun(NEW_LIFE, acts + [GoLive]) <==> Run(NEW_LIFE, acts).phase.Attached?
    ensures LegalRun(NEW_LIFE, acts + [HangUp]) <==> Run(NEW_LIFE, acts).phase.Live?
  {
    PassesAnytime(acts, message);
    MayFollow(acts, Attach);
    MayFollow(acts, GoLive);
    MayFollow(acts, HangUp);
  }

  lemma PassesAnytime(acts: seq<Action>, message: seq<byte>)
    requires LegalRun(NEW_LIFE, acts)
    ensures LegalRun(NEW_LIFE, acts + [Passing(Run(NEW_LIFE, acts), message)])
  {
    RunOneOut(acts);
    CanPass(Run(NEW_LIFE, acts), message);
    MayFollow(acts, Passing(Run(NEW_LIFE, acts), message));
  }

  lemma CanPass(l: Life, message: seq<byte>)
    requires !l.sender.closed
    ensures Enabled(l, Passing(l, message))
  {
  }

  /**
   * A thread or send that is outstanding can go on in every phase, whether or not the system accepts the
   * post and however many of the bytes go out.
   */
  lemma OutstandingGoesOn(acts: seq<Action>, accepted: bool, n: nat)
    requires LegalRun(NEW_LIFE, acts) && Outstanding(Run(NEW_LIFE, acts)) > 0
    ensures var l := Run(NEW_LIFE, acts);
            && l.sender.out.queue != []
            && (|| LegalRun(NEW_LIFE, acts + [Posting(l, accepted)])
                || (n <= |S.Unsent(l.sender.out.queue[0])| ==> LegalRun(NEW_LIFE, acts + [Ending(l, n)]))
                || LegalRun(NEW_LIFE, acts + [Completing(l)]))
  {
    var l := Run(NEW_LIFE, acts);
    RunOneOut(acts);
    MayFollow(acts, Posting(l, accepted));
    MayFollow(acts, Ending(l, n));
    MayFollow(acts, Completing(l));
    OneGoesOn(l, accepted, n);
  }

  lemma OneGoesOn(l: Life, accepted: bool, n: nat)
    requires OneOut(l) && Outstanding(l) > 0
    ensures l.sender.out.queue != []
    ensures || Enabled(l, Posting(l, accepted))
            || (n <= |S.Unsent(l.sender.out.queue[0])| ==> Enabled(l, Ending(l, n)))
            || Enabled(l, Completing(l))
  {
    if l.sender.flights != [] {
      assert l.sender.flights[0] in l.sender.flights;
    }
    if l.late != [] {
      assert l.late[0] in l.late;
    }
  }

  // ----- before OnAccepted -----

  /** Before OnAccepted nothing counts as passed to the connection, and the send side cannot end it. */
  lemma {:induction false} RunUnstarted(acts: seq<Action>)
    requires LegalRun(NEW_LIFE, acts)
    ensures Run(NEW_LIFE, acts).phase.Attached? ==>
              Run(NEW_LIFE, acts).sender.enqueued == [] && !Run(NEW_LIFE, acts).failed
    ensures Run(NEW_LIFE, acts).phase.Live? ==> !Run(NEW_LIFE, acts).failed
  {
    if acts != [] {
      RunUnstarted(acts[..|acts| - 1]);
    }
  }

  /** With the next socket attached, nothing but OnAccepted leads on, and Disconnect does nothing. */
  lemma OnlyGoLiveLeads(l: Life, a: Action)
    requires l.phase.Attached? && Enabled(l, a)
    ensures Next(l, a).phase == if a.GoLive? then Live else Attached
    ensures Next(l, a).failed == l.failed
  {
  }

  /**
   * Whatever old completions fail and whatever posts are refused between the attaching of a socket and
   * OnAccepted, the connection goes live: nothing of it has been passed or ended.
   */
  lemma {:induction false} GoesLiveAnyway(acts: seq<Action>, more: seq<Action>)
    requires LegalRun(NEW_LIFE, acts) && Run(NEW_LIFE, acts).phase.Attached?
    requires LegalRun(Run(NEW_LIFE, acts), more) && GoLive !in more
    ensures var l := Run(Run(NEW_LIFE, acts), more);
            && l.phase.Attached? && !l.failed && l.sender.enqueued == []
            && Enabled(l, GoLive) && Next(l, GoLive).phase.Live? && !Next(l, GoLive).failed
  {
    if more == [] {
      RunUnstarted(acts);
    } else {
      var init, last := more[..|more| - 1], more[|more| - 1];
      GoesLiveAnyway(acts, init);
      OnlyGoLiveLeads(Run(Run(NEW_LIFE, acts), init), last);
    }
  }

  // ----- sessions that never send again -----

  /** The flag is set and nobody will ever clear it. */
  predicate Stale(l: Life) {
    l.sender.out.sending && Outstanding(l) == 0
  }

  lemma StepStale(l: Life, a: Action)
    requires Stale(l) && Enabled(l, a)
    ensures Stale(Next(l, a))
    ensures Next(l, a).sender.wire == if a == Attach then [] else l.sender.wire
  {
  }

  /** With the flag set and nothing outstanding, no connection of the session, now or later, sends a byte. */
  lemma {:induction false} StaleForever(l: Life, acts: seq<Action>)
    requires Stale(l) && LegalRun(l, acts)
    ensures Stale(Run(l, acts))
    ensures Run(l, acts).sender.wire == if Attach in acts then [] else l.sender.wire
  {
    if acts != [] {
      var init, last := acts[..|acts| - 1], acts[|acts| - 1];
      assert acts == init + [last];
      StaleForever(l, init);
      StepStale(Run(l, init), last);
    }
  }

  /** The send side calls Disconnect: a post is refused, or a completion reports no bytes. */
  predicate GivesUp(l: Life, a: Action)
    requires Enabled(l, a)
  {
    match a
    case Own(b) => (b.CallSend? && !b.accepted) || (b.Complete? && l.sender.flights[b.i].n == 0)
    case Refuse => true
    case LateComplete(i) => l.late[i].n == 0
    case _ => false
  }

  lemma StepStops(l: Life, a: Action)
    requires OneOut(l) && Enabled(l, a)
    ensures Stale(Next(l, a)) <==> Stale(l) || GivesUp(l, a)
  {
    match a
    case Own(b) =>
      if b.Complete? {
        OnlyFlight(l, b.i);
      }
    case LateComplete(i) => assert l.late[i] in l.late;
    case _ =>
  }

  /** Some step so far was such a call, whichever connection was there and whatever the call did. */
  predicate GaveUp(acts: seq<Action>)
    requires LegalRun(NEW_LIFE, acts)
  {
    acts != [] &&
    (GaveUp(acts[..|acts| - 1]) || GivesUp(Run(NEW_LIFE, acts[..|acts| - 1]), acts[|acts| - 1]))
  }

  /** In any life, a session has stopped sending for good exactly when its send side has called Disconnect. */
  lemma {:induction false} StopsExactly(acts: seq<Action>)
    requires LegalRun(NEW_LIFE, acts)
    ensures Stale(Run(NEW_LIFE, acts)) <==> GaveUp(acts)
  {
    if acts != [] {
      var init, last := acts[..|acts| - 1], acts[|acts| - 1];
      StopsExactly(init);
      RunOneOut(init);
      StepStops(Run(NEW_LIFE, init), last);
    }
  }
}
