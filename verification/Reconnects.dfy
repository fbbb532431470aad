/**
 * What the connections of a session's life owe to those who use them: exactly when the next one serves,
 * and exactly when it carries only its own bytes.
 */
module Reconnects {
  import opened Bytes
  import opened Lives
  import S = Sending

  // ----- when the next connection serves -----

  /** The actions that bring the send side on. */
  predicate Moves(a: Action) {
    (a.Own? && !a.a.Enqueue?) || a.LateTransfer? || a.LateComplete?
  }

  /** Only the bytes passed to SendPacket while the connection was live, in order. */
  predicate OwnBytes(l: Life) {
    l.sender.wire <= Concat(l.sender.enqueued)
  }

  /**
   * What a connection owes: only its own bytes; a next step while any of them is unsent; and it is not
   * ended by the send side before anything was passed.
   */
  ghost predicate Serves(l: Life) {
    && OwnBytes(l)
    && (l.failed ==> l.sender.enqueued != [])
    && (l.phase.Live? && l.sender.wire != Concat(l.sender.enqueued) ==> exists a :: Enabled(l, a) && Moves(a))
  }

  /** The connection serves, whatever happens until the next one. */
  ghost predicate ServesAlways(l: Life) {
    forall acts :: LegalRun(l, acts) && Attach !in acts ==> Serves(Run(l, acts))
  }

  /** All that is left of the last connection is a completion that makes the session idle. */
  predicate CaughtUp(l: Life) {
    && |l.late| == 1 && l.late[0].Done? && l.late[0].n > 0
    && S.Finish(l.sender.out, l.late[0].n).0 == S.IDLE_OUTBOX
  }

  function Items(messages: seq<seq<byte>>): seq<S.Item> {
    seq(|messages|, i requires 0 <= i < |messages| => S.Item(messages[i], 0))
  }

  lemma {:induction false} ItemsBacklog(messages: seq<seq<byte>>)
    ensures S.Backlog(Items(messages)) == Concat(messages)
  {
    if messages != [] {
      ItemsBacklog(messages[1..]);
      assert Items(messages)[1..] == Items(messages[1..]);
    }
  }

  /** The connection has the send side to itself. */
  ghost predicate Clear(l: Life) {
    && l.late == [] && S.Inv(l.sender) && !l.sender.closed
    && (l.sender.enqueued == [] ==> l.sender.out.queue == [])
  }

  /** The completion of the last connection is awaited; all that is queued behind its message is new. */
  predicate Waiting(l: Life) {
    && |l.late| == 1 && l.late[0].Done? && l.late[0].n > 0
    && l.sender.posters == 0 && l.sender.flights == [] && l.sender.wire == [] && !l.sender.closed
    && l.sender.out.sending && l.sender.out.queue != []
    && l.late[0].n == |S.Unsent(l.sender.out.queue[0])|
    && l.sender.out.queue[1..] == Items(l.sender.enqueued)
  }

  ghost predicate Good(l: Life) {
    match l.phase
    case Live => !l.failed && (Clear(l) || Waiting(l))
    case Closed => OwnBytes(l) && (l.failed ==> l.sender.enqueued != [])
    case Attached => false
  }

  lemma StepGood(l: Life, a: Action)
    requires Good(l) && Enabled(l, a) && a != Attach
    ensures Good(Next(l, a))
  {
    if l.phase.Live? {
      if Clear(l) {
        if a.Own? {
          ClearOwn(l, a.a);
        }
      } else if a.LateComplete? {
        WaitIsOver(l);
      } else if a.Own? {
        WaitingOwn(l, a.a);
      }
    }
  }

  lemma ClearOwn(l: Life, b: S.Action)
    requires l.phase.Live? && !l.failed && Clear(l) && Enabled(l, Own(b))
    ensures Good(OwnNext(l, b))
  {
    OwnKeepsClear(l, b);
  }

  lemma OwnKeepsClear(l: Life, b: S.Action)
    requires l.phase.Live? && Clear(l) && Enabled(l, Own(b))
    ensures var m := OwnNext(l, b);
            if m.phase.Live? then Clear(m) && m.failed == l.failed
            else m.phase.Closed? && OwnBytes(m) && m.sender.enqueued != []
  {
    S.StepInv(l.sender, b);
    var n := S.Next(l.sender, b);
    if n.closed {
      assert n.wire == l.sender.wire && n.enqueued == l.sender.enqueued;
    } else {
      assert n.(closed := false) == n;
    }
  }

  lemma WaitingOwn(l: Life, b: S.Action)
    requires l.phase.Live? && !l.failed && Waiting(l) && Enabled(l, Own(b))
    ensures Good(OwnNext(l, b))
  {
    var s := l.sender;
    assert Items(s.enqueued + [b.message]) == Items(s.enqueued) + [S.Item(b.message, 0)];
    assert (s.out.queue + [S.Item(b.message, 0)])[1..] == s.out.queue[1..] + [S.Item(b.message, 0)];
  }

  lemma WaitIsOver(l: Life)
    requires l.phase.Live? && !l.failed && Waiting(l)
    ensures Good(LateNext(l, 0))
  {
    OnlyOwnQueued(LateNext(l, 0));
  }

  lemma GoodServes(l: Life)
    requires Good(l)
    ensures Serves(l)
  {
    if l.phase.Live? && l.sender.wire != Concat(l.sender.enqueued) {
      if Clear(l) {
        assert l.sender.out.queue != [];
        var b := S.NeverStuck(l.sender);
        assert Enabled(l, Own(b)) && Moves(Own(b));
      } else {
        assert Enabled(l, LateComplete(0)) && Moves(LateComplete(0));
      }
    }
  }

  lemma {:induction false} RunGood(l: Life, acts: seq<Action>)
    requires Good(l) && LegalRun(l, acts) && Attach !in acts
    ensures Good(Run(l, acts))
  {
    if acts != [] {
      var init, last := acts[..|acts| - 1], acts[|acts| - 1];
      RunGood(l, init);
      StepGood(Run(l, init), last);
    }
  }

  /** A connection right after OnAccepted. */
  ghost predicate Starting(l: Life) {
    OneOut(l) && S.Ahead(l.sender) <= |l.sender.wire| && l.phase.Live? && l.sender.enqueued == [] && !l.failed
  }

  lemma StartsGood(l: Life)
    requires Starting(l) && l.sender.wire == [] && (l.sender.out == S.IDLE_OUTBOX || CaughtUp(l))
    ensures Good(l)
  {
    if l.sender.out == S.IDLE_OUTBOX {
      OnlyOwnQueued(l);
    } else {
      StartsWaiting(l);
    }
  }

  lemma StartsWaiting(l: Life)
    requires Starting(l) && l.sender.wire == [] && CaughtUp(l)
    ensures Waiting(l)
  {
    assert l.late[0] in l.late;
    LastMessage(l.sender.out, l.late[0].n);
    assert Items(l.sender.enqueued) == [];
  }

  lemma LastMessage(out: S.Outbox, n: nat)
    requires out.sending && out.queue != [] && 0 < n <= |S.Unsent(out.queue[0])|
    requires S.Finish(out, n).0 == S.IDLE_OUTBOX
    ensures out.queue[1..] == [] && n == |S.Unsent(out.queue[0])|
  {
  }

  /** One step, or two, after which the connection does not serve. */
  lemma Fails(l: Life, a: Action)
    requires Enabled(l, a) && a != Attach && !Serves(Next(l, a))
    ensures !ServesAlways(l)
  {
    StepTo(l, [], l, a, Next(l, a));
    assert Attach !in [] + [a];
  }

  lemma FailsLater(l: Life, a: Action, b: Action)
    requires Enabled(l, a) && Enabled(Next(l, a), b) && a != Attach && b != Attach
    requires !Serves(Next(Next(l, a), b))
    ensures !ServesAlways(l)
  {
    StepTo(l, [], l, a, Next(l, a));
    StepTo(l, [] + [a], Next(l, a), b, Next(Next(l, a), b));
    assert Attach !in [] + [a] + [b];
  }

  lemma OtherwiseFails(l: Life)
    requires Starting(l) && !(l.sender.wire == [] && (l.sender.out == S.IDLE_OUTBOX || CaughtUp(l)))
    ensures !ServesAlways(l)
  {
    var s := l.sender;
    if s.wire != [] {
      assert LegalRun(l, []) && Run(l, []) == l && !Serves(l);
    } else if Outstanding(l) == 0 {
      ConcatTwo([0], [0]);
      Fails(l, Own(S.Enqueue([0])));
    } else if s.posters == 1 {
      Fails(l, Own(S.CallSend(false)));
    } else if |s.flights| == 1 {
      FlightFails(l);
    } else {
      LateFails(l);
    }
  }

  lemma FlightFails(l: Life)
    requires Starting(l) && l.sender.wire == [] && |l.sender.flights| == 1
    ensures !ServesAlways(l)
  {
    OnlyFlight(l, 0);
    if l.sender.flights[0].Posted? {
      FailsLater(l, Own(S.Transfer(0, 0)), Own(S.Complete(0)));
    } else {
      Fails(l, Own(S.Complete(0)));
    }
  }

  lemma LateFails(l: Life)
    requires Starting(l) && l.sender.wire == [] && |l.late| == 1 && !CaughtUp(l)
    ensures !ServesAlways(l)
  {
    assert l.late[0] in l.late;
    if l.late[0].Posted? {
      FailsLater(l, LateTransfer(0, 0), LateComplete(0));
    } else if l.late[0].n == 0 {
      Fails(l, LateComplete(0));
    } else {
      S.FinishBacklog(l.sender.out, l.late[0].n);
      FailsLater(l, LateComplete(0), Own(S.CallSend(false)));
    }
  }

  /**
   * When a connection on a reused session serves, exactly, at any point of any life: if and only if, when
   * OnAccepted runs, nothing is on the new wire, and the session is idle or waits only for a completion
   * that makes it idle.
   */
  lemma ServesExactly(acts: seq<Action>)
    requires LegalRun(NEW_LIFE, acts) && Run(NEW_LIFE, acts).phase.Attached?
    ensures var l := Next(Run(NEW_LIFE, acts), GoLive);
            ServesAlways(l) <==> l.sender.wire == [] && (l.sender.out == S.IDLE_OUTBOX || CaughtUp(l))
  {
    var l := Next(Run(NEW_LIFE, acts), GoLive);
    GoesLive(acts);
    if l.sender.wire == [] && (l.sender.out == S.IDLE_OUTBOX || CaughtUp(l)) {
      StartsGood(l);
      forall more | LegalRun(l, more) && Attach !in more
        ensures Serves(Run(l, more))
      {
        RunGood(l, more);
        GoodServes(Run(l, more));
      }
    } else {
      OtherwiseFails(l);
    }
  }

  lemma GoesLive(acts: seq<Action>)
    requires LegalRun(NEW_LIFE, acts) && Run(NEW_LIFE, acts).phase.Attached?
    ensures Starting(Next(Run(NEW_LIFE, acts), GoLive))
  {
    RunInOrder(acts);
    RunUnstarted(acts);
    StepOneOut(Run(NEW_LIFE, acts), GoLive);
  }

  // ----- when the next connection sends only its own bytes -----

  /** The next bytes to be posted. */
  function Front(out: S.Outbox): seq<byte> {
    if out.queue == [] then [] else S.Unsent(out.queue[0])
  }

  /** A completion of `n` bytes makes an old message the next one to be posted. */
  predicate BringsOld(out: S.Outbox, n: nat) {
    Front(S.Finish(out, n).0) != []
  }

  /**
   * A connection right after OnAccepted can carry an old byte: it does already, or one is posted on it,
   * or a thread is about to post one, or a completion of an earlier connection can lead to that.
   */
  predicate Leaks(l: Life) {
    || l.sender.wire != []
    || (l.sender.posters > 0 && Front(l.sender.out) != [])
    || (|l.sender.flights| == 1 && l.sender.flights[0].Posted? && Front(l.sender.out) != [])
    || (|l.late| == 1 && LateLeaks(l.sender.out, l.late[0]))
  }

  predicate LateLeaks(out: S.Outbox, f: S.Flight) {
    match f
    case Posted(data) => exists n :: 0 < n <= |data| && BringsOld(out, n)
    case Done(n) => 0 < n && BringsOld(out, n)
  }

  ghost predicate OwnBytesAlways(l: Life) {
    forall acts :: LegalRun(l, acts) && Attach !in acts ==> OwnBytes(Run(l, acts))
  }

  /** What is posted next, or is posted, is nothing: it can only end the connection. */
  predicate Blank(l: Life) {
    && l.late == [] && l.sender.out.sending && l.sender.out.queue != []
    && ((l.sender.posters == 1 && l.sender.flights == [] && Front(l.sender.out) == [])
        || (l.sender.posters == 0 && l.sender.flights == [S.Posted([])])
        || (l.sender.posters == 0 && l.sender.flights == [S.Done(0)]))
  }

  /** What was queued before the connection went live. */
  function OldQueue(l: Life): seq<S.Item> {
    if |l.sender.enqueued| <= |l.sender.out.queue|
    then l.sender.out.queue[..|l.sender.out.queue| - |l.sender.enqueued|]
    else []
  }

  /** A completion of an earlier connection is awaited, and it will not bring an old message to the front. */
  predicate Harmless(l: Life) {
    && |l.late| == 1 && l.sender.posters == 0 && l.sender.flights == [] && l.sender.out.sending
    && OldQueue(l) != []
    && l.sender.out.queue == OldQueue(l) + Items(l.sender.enqueued)
    && FlightFits(S.Outbox(OldQueue(l), true), l.late[0])
    && !LateLeaks(S.Outbox(OldQueue(l), true), l.late[0])
  }

  ghost predicate Safe(l: Life) {
    match l.phase
    case Live => !l.sender.closed && (Clear(l) || (l.sender.wire == [] && (Stale(l) || Blank(l) || Harmless(l))))
    case Closed => OwnBytes(l)
    case Attached => false
  }

  lemma StepSafe(l: Life, a: Action)
    requires Safe(l) && Enabled(l, a) && a != Attach
    ensures Safe(Next(l, a))
  {
    if l.phase.Live? {
      if Clear(l) {
        ClearSafe(l, a);
      } else if Stale(l) {
        StaleSafe(l, a);
      } else if Blank(l) {
        BlankSafe(l, a);
      } else {
        HarmlessSafe(l, a);
      }
    }
  }

  lemma ClearSafe(l: Life, a: Action)
    requires l.phase.Live? && !l.sender.closed && Clear(l) && Enabled(l, a)
    ensures Safe(Next(l, a))
  {
    if a.Own? {
      OwnKeepsClear(l, a.a);
    }
  }

  lemma StaleSafe(l: Life, a: Action)
    requires l.phase.Live? && !l.sender.closed && l.sender.wire == [] && Stale(l) && Enabled(l, a)
    ensures Safe(Next(l, a))
  {
  }

  lemma BlankSafe(l: Life, a: Action)
    requires l.phase.Live? && !l.sender.closed && l.sender.wire == [] && Blank(l) && Enabled(l, a)
    ensures Safe(Next(l, a))
  {
    if a.Own? && a.a.Transfer? {
      assert l.sender.flights[a.a.i] == S.Posted([]) && a.a.i == 0;
      assert Next(l, a).sender.flights == [S.Done(0)];
    }
  }

  lemma HarmlessSafe(l: Life, a: Action)
    requires l.phase.Live? && !l.sender.closed && l.sender.wire == [] && Harmless(l) && Enabled(l, a)
    ensures Safe(Next(l, a))
  {
    match a
    case Own(b) => HarmlessOwn(l, b);
    case LateTransfer(i, n) => HarmlessTransfer(l, i, n);
    case LateComplete(i) =>
      if l.late[0].n > 0 {
        HarmlessComplete(l, i);
      }
    case HangUp =>
  }

  lemma HarmlessOwn(l: Life, b: S.Action)
    requires l.phase.Live? && !l.sender.closed && Harmless(l) && Enabled(l, Own(b))
    ensures Harmless(OwnNext(l, b)) && OwnNext(l, b).sender.wire == l.sender.wire
    ensures OwnNext(l, b).phase.Live? && !OwnNext(l, b).sender.closed
  {
    var s := l.sender;
    assert Items(s.enqueued + [b.message]) == Items(s.enqueued) + [S.Item(b.message, 0)];
    var m := OwnNext(l, b);
    assert m.sender.out.queue == OldQueue(l) + Items(m.sender.enqueued);
    assert OldQueue(m) == OldQueue(l);
  }

  lemma HarmlessTransfer(l: Life, i: nat, n: nat)
    requires Harmless(l) && Enabled(l, LateTransfer(i, n))
    ensures Harmless(Next(l, LateTransfer(i, n)))
  {
    var m := Next(l, LateTransfer(i, n));
    assert m.late == [S.Done(n)] && OldQueue(m) == OldQueue(l);
  }

  /** The message that was awaited is done, and the one behind it is new, or empty, or there is none. */
  lemma HarmlessComplete(l: Life, i: nat)
    requires l.phase.Live? && !l.sender.closed && l.sender.wire == [] && Harmless(l)
    requires Enabled(l, LateComplete(i)) && l.late[0].n > 0
    ensures Safe(LateNext(l, i))
  {
    var before, m := OldQueue(l), LateNext(l, i);
    var n := l.late[0].n;
    assert l.sender.out.queue[0] == before[0];
    assert before[0].off + n >= |before[0].buf|;
    assert l.sender.out.queue[1..] == before[1..] + Items(l.sender.enqueued);
    assert m.sender.out.queue == before[1..] + Items(l.sender.enqueued);
    if |before| == 1 {
      assert m.sender.out.queue == Items(l.sender.enqueued);
      OnlyOwnQueued(m);
    } else {
      assert m.sender.out.queue[0] == before[1];
    }
  }

  /** With nothing outstanding of the last connection and only new messages queued, all is as on a new session. */
  lemma OnlyOwnQueued(l: Life)
    requires l.late == [] && l.sender.flights == [] && l.sender.wire == [] && !l.sender.closed
    requires l.sender.out == S.Outbox(Items(l.sender.enqueued), l.sender.enqueued != [])
    requires l.sender.posters == if l.sender.enqueued != [] then 1 else 0
    ensures Clear(l)
  {
    ItemsBacklog(l.sender.enqueued);
    assert S.Backlog(l.sender.out.queue)[0..] == Concat(l.sender.enqueued);
  }

  lemma {:induction false} RunSafe(l: Life, acts: seq<Action>)
    requires Safe(l) && LegalRun(l, acts) && Attach !in acts
    ensures Safe(Run(l, acts))
  {
    if acts != [] {
      var init, last := acts[..|acts| - 1], acts[|acts| - 1];
      RunSafe(l, init);
      StepSafe(Run(l, init), last);
    }
  }

  lemma StartsSafe(l: Life)
    requires Starting(l) && !Leaks(l)
    ensures Safe(l)
  {
    if l.sender.out == S.IDLE_OUTBOX {
      StartsGood(l);
    } else if |l.sender.flights| == 1 {
      OnlyFlight(l, 0);
      FlightStartsBlank(l);
    } else if |l.late| == 1 {
      LateStartsHarmless(l);
    }
  }

  lemma FlightStartsBlank(l: Life)
    requires Starting(l) && !Leaks(l) && |l.sender.flights| == 1
    ensures Blank(l)
  {
    OnlyFlight(l, 0);
    assert l.sender.flights == [l.sender.flights[0]];
  }

  lemma LateStartsHarmless(l: Life)
    requires Starting(l) && !Leaks(l) && |l.late| == 1
    ensures Harmless(l)
  {
    assert l.late[0] in l.late;
    assert OldQueue(l) == l.sender.out.queue;
    assert l.sender.out == S.Outbox(OldQueue(l), true);
    assert OldQueue(l) + Items([]) == OldQueue(l);
  }

  // ----- runs that carry an old byte -----

  /** A thread about to post an old message posts it, and its first byte goes out. */
  lemma PosterLeaks(l: Life, acts: seq<Action>)
    requires LegalRun(l, acts) && Attach !in acts
    requires var m := Run(l, acts);
             && !m.phase.Closed? && !m.sender.closed && m.sender.wire == [] && m.sender.enqueued == []
             && m.sender.posters == 1 && m.sender.flights == [] && Front(m.sender.out) != []
    ensures !OwnBytesAlways(l)
  {
    var m := Run(l, acts);
    var posted := Next(m, Own(S.CallSend(true)));
    assert posted.sender.flights == [S.Posted(Front(m.sender.out))];
    StepTo(l, acts, m, Own(S.CallSend(true)), posted);
    FlightLeaks(l, acts + [Own(S.CallSend(true))]);
  }

  lemma FlightLeaks(l: Life, acts: seq<Action>)
    requires LegalRun(l, acts) && Attach !in acts
    requires var m := Run(l, acts);
             && !m.phase.Closed? && !m.sender.closed && m.sender.wire == [] && m.sender.enqueued == []
             && |m.sender.flights| == 1 && m.sender.flights[0].Posted? && m.sender.flights[0].data != []
    ensures !OwnBytesAlways(l)
  {
    var m := Run(l, acts);
    var sent := Next(m, Own(S.Transfer(0, 1)));
    StepTo(l, acts, m, Own(S.Transfer(0, 1)), sent);
    assert sent.sender.wire == m.sender.flights[0].data[..1];
    assert !OwnBytes(sent);
    assert Attach !in acts + [Own(S.Transfer(0, 1))];
  }

  lemma CompletionLeaks(l: Life, acts: seq<Action>)
    requires LegalRun(l, acts) && Attach !in acts
    requires var m := Run(l, acts);
             && Starting(m) && m.sender.wire == []
             && |m.late| == 1 && m.late[0].Done? && LateLeaks(m.sender.out, m.late[0])
    ensures !OwnBytesAlways(l)
  {
    var m := Run(l, acts);
    OldComesNext(m);
    StepTo(l, acts, m, LateComplete(0), LateNext(m, 0));
    PosterLeaks(l, acts + [LateComplete(0)]);
  }

  lemma OldComesNext(l: Life)
    requires Starting(l) && l.sender.wire == []
    requires |l.late| == 1 && l.late[0].Done? && LateLeaks(l.sender.out, l.late[0])
    ensures var m := LateNext(l, 0);
            && !m.phase.Closed? && !m.sender.closed && m.sender.wire == [] && m.sender.enqueued == []
            && m.sender.posters == 1 && m.sender.flights == [] && Front(m.sender.out) != []
  {
    assert l.late[0] in l.late;
    S.FinishBacklog(l.sender.out, l.late[0].n);
  }

  lemma LeaksLeak(l: Life)
    requires Starting(l) && Leaks(l)
    ensures !OwnBytesAlways(l)
  {
    if l.sender.wire != [] {
      assert LegalRun(l, []) && Run(l, []) == l && !OwnBytes(l);
    } else if l.sender.posters > 0 {
      PosterLeaks(l, []);
    } else if |l.sender.flights| == 1 {
      OnlyFlight(l, 0);
      FlightLeaks(l, []);
    } else if l.late[0].Done? {
      CompletionLeaks(l, []);
    } else {
      LatePostedLeaks(l);
    }
  }

  lemma LatePostedLeaks(l: Life)
    requires Starting(l) && l.sender.wire == []
    requires |l.late| == 1 && l.late[0].Posted? && LateLeaks(l.sender.out, l.late[0])
    ensures !OwnBytesAlways(l)
  {
    var n :| 0 < n <= |l.late[0].data| && BringsOld(l.sender.out, n);
    var done := l.(late := [S.Done(n)]);
    StepOneOut(l, LateTransfer(0, n));
    StepTo(l, [], l, LateTransfer(0, n), done);
    CompletionLeaks(l, [] + [LateTransfer(0, n)]);
  }

  /**
   * When a connection carries only its own bytes, exactly, at any point of any life: if and only if
   * nothing that can carry an old byte is there when OnAccepted runs.
   */
  lemma OwnBytesExactly(acts: seq<Action>)
    requires LegalRun(NEW_LIFE, acts) && Run(NEW_LIFE, acts).phase.Attached?
    ensures var l := Next(Run(NEW_LIFE, acts), GoLive); OwnBytesAlways(l) <==> !Leaks(l)
  {
    var l := Next(Run(NEW_LIFE, acts), GoLive);
    GoesLive(acts);
    if Leaks(l) {
      LeaksLeak(l);
    } else {
      StartsSafe(l);
      forall more | LegalRun(l, more) && Attach !in more
        ensures OwnBytes(Run(l, more))
      {
        RunSafe(l, more);
      }
    }
  }

  // ----- runs in which the next connection suffers -----

  /** A connection on a new session, and a first message passed to it. */
  function FirstMessage(message: seq<byte>): seq<Action> {
    [] + [Attach] + [GoLive] + [Own(S.Enqueue(message))]
  }

  function Queued(message: seq<byte>): Life {
    Life(Live, S.Sender(S.Outbox([S.Item(message, 0)], true), 1, [], [], [message], false), [], [message], false)
  }

  lemma FirstMessageRun(message: seq<byte>)
    ensures LegalRun(NEW_LIFE, FirstMessage(message)) && Run(NEW_LIFE, FirstMessage(message)) == Queued(message)
  {
    var l1 := NEW_LIFE.(phase := Attached);
    var l2 := NEW_LIFE.(phase := Live);
    StepTo(NEW_LIFE, [], NEW_LIFE, Attach, l1);
    StepTo(NEW_LIFE, [] + [Attach], l1, GoLive, l2);
    StepTo(NEW_LIFE, [] + [Attach] + [GoLive], l2, Own(S.Enqueue(message)), Queued(message));
  }

  /** The connection ends and the session is used again. */
  function Again(acts: seq<Action>): seq<Action> {
    acts + [HangUp] + [Attach] + [GoLive]
  }

  lemma AgainRun(acts: seq<Action>, l: Life)
    requires LegalRun(NEW_LIFE, acts) && Run(NEW_LIFE, acts) == l && l.phase.Live? && !l.failed
    ensures LegalRun(NEW_LIFE, Again(acts))
    ensures Run(NEW_LIFE, Again(acts))
         == Life(Live, S.Sender(l.sender.out, l.sender.posters, [], [], [], false), l.late + l.sender.flights,
                 l.passed, false)
  {
    var ended := Ended(l);
    var again := Life(Attached, S.Sender(l.sender.out, l.sender.posters, [], [], [], false),
                      l.late + l.sender.flights, l.passed, false);
    StepTo(NEW_LIFE, acts, l, HangUp, ended);
    StepTo(NEW_LIFE, acts + [HangUp], ended, Attach, again);
    StepTo(NEW_LIFE, acts + [HangUp] + [Attach], again, GoLive, again.(phase := Live));
  }

  /**
   * The peer hangs up while a thread is between the lock section of SendPacket and its call of Send. That
   * thread then sends the old message to the next peer.
   */
  lemma SentToTheNext(message: seq<byte>) returns (acts: seq<Action>)
    ensures LegalRun(NEW_LIFE, acts)
    ensures var l := Run(NEW_LIFE, acts); l.phase.Live? && l.sender.enqueued == [] && l.sender.wire == message
  {
    FirstMessageRun(message);
    AgainRun(FirstMessage(message), Queued(message));
    acts := Again(FirstMessage(message));
    var l := Run(NEW_LIFE, acts);
    assert S.Unsent(S.Item(message, 0)) == message;
    acts := PostsFront(acts, l, message);
  }

  /** A thread on its way to Send posts what is unsent of the front message, and all of it goes out. */
  lemma PostsFront(before: seq<Action>, l: Life, data: seq<byte>) returns (acts: seq<Action>)
    requires LegalRun(NEW_LIFE, before) && Run(NEW_LIFE, before) == l && l.phase.Live? && !l.sender.closed
    requires l.sender.out.queue != [] && S.Unsent(l.sender.out.queue[0]) == data
    requires l.sender.posters == 1 && l.sender.flights == [] && l.sender.wire == []
    ensures LegalRun(NEW_LIFE, acts)
    ensures Run(NEW_LIFE, acts) == l.(sender := l.sender.(posters := 0, flights := [S.Done(|data|)], wire := data))
  {
    var posted := l.(sender := l.sender.(posters := 0, flights := [S.Posted(data)]));
    var sent := posted.(sender := posted.sender.(flights := [S.Done(|data|)], wire := data));
    assert data[..|data|] == data;
    StepTo(NEW_LIFE, before, l, Own(S.CallSend(true)), posted);
    StepTo(NEW_LIFE, before + [Own(S.CallSend(true))], posted, Own(S.Transfer(0, |data|)), sent);
    acts := before + [Own(S.CallSend(true))] + [Own(S.Transfer(0, |data|))];
  }

  /** One message posted, and the peer hangs up before its completion is handled. */
  lemma PostedAndGone(message: seq<byte>) returns (acts: seq<Action>)
    ensures LegalRun(NEW_LIFE, acts)
    ensures Run(NEW_LIFE, acts)
         == Life(Live, S.Sender(S.Outbox([S.Item(message, 0)], true), 0, [], [], [], false), [S.Posted(message)],
                 [message], false)
  {
    FirstMessageRun(message);
    acts := FirstMessage(message);
    var l := Queued(message);
    var posted := l.(sender := l.sender.(posters := 0, flights := [S.Posted(message)]));
    assert S.Unsent(S.Item(message, 0)) == message;
    StepTo(NEW_LIFE, acts, l, Own(S.CallSend(true)), posted);
    acts := acts + [Own(S.CallSend(true))];
    AgainRun(acts, posted);
    acts := Again(acts);
  }

  /** The posted send fails because its socket was closed, and that ends the next connection. */
  lemma OldFailureEndsTheNext(message: seq<byte>) returns (acts: seq<Action>)
    ensures LegalRun(NEW_LIFE, acts)
    ensures var l := Run(NEW_LIFE, acts); l.phase.Closed? && l.failed && l.sender.enqueued == []
  {
    acts := PostedAndGone(message);
    var l := Run(NEW_LIFE, acts);
    var failed := l.(late := [S.Done(0)]);
    StepTo(NEW_LIFE, acts, l, LateTransfer(0, 0), failed);
    acts := acts + [LateTransfer(0, 0)];
    StepTo(NEW_LIFE, acts, failed, LateComplete(0), l.(late := [], phase := Closed, failed := true));
    acts := acts + [LateComplete(0)];
  }

  /**
   * The same failure between the attaching of the next socket and OnAccepted: the connection goes live all
   * the same, and never sends.
   */
  lemma OldFailureBeforeOnAccepted(message: seq<byte>) returns (acts: seq<Action>)
    ensures LegalRun(NEW_LIFE, acts)
    ensures var l := Run(NEW_LIFE, acts);
            l.phase.Live? && !l.failed && l.sender.enqueued == [] && l.late == [] && Stale(l)
  {
    FirstMessageRun(message);
    acts := FirstMessage(message);
    var l := Queued(message);
    var gone := Life(Closed, S.Sender(l.sender.out, 0, [], [], [message], false),
                     [S.Posted(message)], [message], false);
    var posted := l.(sender := l.sender.(posters := 0, flights := [S.Posted(message)]));
    assert S.Unsent(S.Item(message, 0)) == message;
    StepTo(NEW_LIFE, acts, l, Own(S.CallSend(true)), posted);
    StepTo(NEW_LIFE, acts + [Own(S.CallSend(true))], posted, HangUp, gone);
    acts := FailsWhileAttached(acts + [Own(S.CallSend(true))] + [HangUp], gone);
  }

  lemma FailsWhileAttached(before: seq<Action>, gone: Life) returns (acts: seq<Action>)
    requires LegalRun(NEW_LIFE, before) && Run(NEW_LIFE, before) == gone
    requires gone.phase.Closed? && |gone.late| == 1 && gone.late[0].Posted? && !gone.failed
    ensures LegalRun(NEW_LIFE, acts)
    ensures Run(NEW_LIFE, acts)
         == Life(Live, S.Sender(gone.sender.out, gone.sender.posters, [], [], [], false), [], gone.passed, false)
  {
    var attached := Next(gone, Attach);
    var failed := attached.(late := [S.Done(0)]);
    var handled := attached.(late := []);
    StepTo(NEW_LIFE, before, gone, Attach, attached);
    StepTo(NEW_LIFE, before + [Attach], attached, LateTransfer(0, 0), failed);
    StepTo(NEW_LIFE, before + [Attach] + [LateTransfer(0, 0)], failed, LateComplete(0), handled);
    acts := before + [Attach] + [LateTransfer(0, 0)] + [LateComplete(0)];
    StepTo(NEW_LIFE, acts, handled, GoLive, handled.(phase := Live));
    acts := acts + [GoLive];
  }

  /** The posted send succeeds: its completion makes the session idle again, and the next connection serves. */
  lemma OldCompletionHelps(message: seq<byte>) returns (acts: seq<Action>)
    requires message != []
    ensures LegalRun(NEW_LIFE, acts)
    ensures var l := Run(NEW_LIFE, acts);
            l.phase.Live? && l.sender.out == S.IDLE_OUTBOX && l.sender.wire == [] && Outstanding(l) == 0
  {
    acts := PostedAndGone(message);
    var l := Run(NEW_LIFE, acts);
    var done := l.(late := [S.Done(|message|)]);
    StepTo(NEW_LIFE, acts, l, LateTransfer(0, |message|), done);
    acts := acts + [LateTransfer(0, |message|)];
    StepTo(NEW_LIFE, acts, done, LateComplete(0),
           l.(late := [], sender := l.sender.(out := S.IDLE_OUTBOX)));
    acts := acts + [LateComplete(0)];
  }

  /** The posted send succeeds in part: the rest of the old message is sent to the next peer. */
  lemma RestSentToTheNext(message: seq<byte>, n: nat) returns (acts: seq<Action>)
    requires 0 < n < |message|
    ensures LegalRun(NEW_LIFE, acts)
    ensures var l := Run(NEW_LIFE, acts);
            l.phase.Live? && l.sender.enqueued == [] && l.sender.wire == message[n..]
  {
    acts := PostedAndGone(message);
    var l, rest := Run(NEW_LIFE, acts), message[n..];
    var done := l.(late := [S.Done(n)]);
    var left := S.Outbox([S.Item(message, n)], true);
    var again := l.(late := [], sender := l.sender.(out := left, posters := 1));
    StepTo(NEW_LIFE, acts, l, LateTransfer(0, n), done);
    acts := acts + [LateTransfer(0, n)];
    StepTo(NEW_LIFE, acts, done, LateComplete(0), again);
    acts := acts + [LateComplete(0)];
    acts := PostsFront(acts, again, rest);
  }

  /** The first send of a connection is refused, which ends it and leaves the session unable to send. */
  lemma RefusedConnection(message: seq<byte>) returns (acts: seq<Action>)
    ensures LegalRun(NEW_LIFE, acts)
    ensures Run(NEW_LIFE, acts).phase.Closed? && Run(NEW_LIFE, acts).failed && Stale(Run(NEW_LIFE, acts))
  {
    FirstMessageRun(message);
    var l := Queued(message);
    acts := FirstMessage(message) + [Own(S.CallSend(false))];
    StepTo(NEW_LIFE, FirstMessage(message), l, Own(S.CallSend(false)),
           l.(phase := Closed, failed := true, sender := l.sender.(posters := 0)));
  }
}
