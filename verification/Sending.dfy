/**
 * The send side of a session: a queue of messages, each with the offset up to which it was sent, and
 * a flag that says a send is under way. SendPacket may be called by any thread at any time; a send is
 * posted outside the lock section that decides to post it; completions arrive on any worker thread.
 */
module Sending {
  import opened Bytes

  datatype Item = Item(buf: seq<byte>, off: nat)

  datatype Outbox = Outbox(queue: seq<Item>, sending: bool)

  const IDLE_OUTBOX := Outbox([], false)

  function Unsent(item: Item): seq<byte> {
    if item.off <= |item.buf| then item.buf[item.off..] else []
  }

  /** All queued bytes that have not been sent. */
  function Backlog(queue: seq<Item>): seq<byte> {
    if queue == [] then [] else Unsent(queue[0]) + Backlog(queue[1..])
  }

  /** What a call to Send leads to. */
  datatype Posting = Nothing | Refused | Accepted(data: seq<byte>)

  /** The lock section of SendPacket; a send must be posted if none was under way. */
  function Push(o: Outbox, message: seq<byte>): Outbox {
    Outbox(o.queue + [Item(message, 0)], true)
  }

  /** Send: posts what is unsent of the front message, or finds nothing to send. */
  function Post(o: Outbox, accepted: bool): (Outbox, Posting) {
    if o.queue == [] then (o.(sending := false), Nothing)
    else (o, if accepted then Accepted(Unsent(o.queue[0])) else Refused)
  }

  /** The lock section of OnSendCompleted for `n` sent bytes; the second result says whether to post again. */
  function Finish(o: Outbox, n: nat): (Outbox, bool) {
    if o.queue == [] then (o.(sending := false), false)
    else
      var item := o.queue[0].(off := o.queue[0].off + n);
      if item.off >= |item.buf| then
        if |o.queue| > 1 then (o.(queue := o.queue[1..]), true) else (Outbox([], false), false)
      else (o.(queue := [item] + o.queue[1..]), true)
  }

  // ----- the class -----

  class Session {
    var queue: seq<Item>
    var sending: bool
    var disconnected: bool

    function Box(): Outbox
      reads this
    {
      Outbox(queue, sending)
    }

    constructor ()
      ensures Box() == IDLE_OUTBOX && !disconnected
    {
      queue, sending, disconnected := [], false, false;
    }

    /** `accepted` is the answer of the operating system to the posted send. */
    method Send(accepted: bool) returns (posting: Posting)
      modifies this
      ensures (Box(), posting) == Post(old(Box()), accepted)
      ensures disconnected == (old(disconnected) || posting.Refused?)
    {
      if |queue| == 0 {
        sending := false;
        return Nothing;
      }
      var front := queue[0];
      if !accepted {
        disconnected := true;
        return Refused;
      }
      return Accepted(Unsent(front));
    }

    method SendPacket(message: seq<byte>, accepted: bool) returns (posting: Posting)
      modifies this
      ensures Box() == Push(old(Box()), message)
      ensures posting == if old(sending) then Nothing else Post(Box(), accepted).1
      ensures disconnected == (old(disconnected) || posting.Refused?)
    {
      queue := queue + [Item(message, 0)];
      if sending {
        return Nothing;
      }
      sending := true;
      posting := Send(accepted);
    }

    /** A send completion for `n` bytes. */
    method OnSendCompleted(n: nat, accepted: bool) returns (posting: Posting)
      modifies this
      ensures n == 0 ==> Box() == old(Box()) && posting == Nothing && disconnected
      ensures n > 0 ==>
                && Box() == Finish(old(Box()), n).0
                && posting == (if Finish(old(Box()), n).1 then Post(Box(), accepted).1 else Nothing)
                && disconnected == (old(disconnected) || posting.Refused?)
    {
      if n == 0 {
        disconnected := true;
        return Nothing;
      }
      var needPost := false;
      if |queue| == 0 {
        sending := false;
        return Nothing;
      }
      queue := [queue[0].(off := queue[0].off + n)] + queue[1..];
      if queue[0].off >= |queue[0].buf| {
        queue := queue[1..];
        if |queue| != 0 {
          needPost := true;
        } else {
          sending := false;
        }
      } else {
        needPost := true;
      }
      if needPost {
        posting := Send(accepted);
      } else {
        posting := Nothing;
      }
    }
  }

  // ----- the interleaving -----

  /** A send that was posted, or one whose completion for `n` bytes has not been handled. */
  datatype Flight = Posted(data: seq<byte>) | Done(n: nat)

  /**
   * `posters` counts the threads between their lock section and their call of Send; `wire` is what
   * was put on the connection; `enqueued` is every message ever passed to SendPacket.
   */
  datatype Sender = Sender(
    out: Outbox,
    posters: nat,
    flights: seq<Flight>,
    wire: seq<byte>,
    enqueued: seq<seq<byte>>,
    closed: bool)

  datatype Action =
    | Enqueue(message: seq<byte>)
    | CallSend(accepted: bool)
    | Transfer(i: nat, n: nat)
    | Complete(i: nat)

  /** A session with this send side when a connection begins. */
  function Begin(out: Outbox): Sender {
    Sender(out, 0, [], [], [], false)
  }

  predicate Enabled(s: Sender, a: Action) {
    && !s.closed
    && match a
       case Enqueue(_) => true
       case CallSend(_) => s.posters > 0
       case Transfer(i, n) => i < |s.flights| && s.flights[i].Posted? && n <= |s.flights[i].data|
       case Complete(i) => i < |s.flights| && s.flights[i].Done?
  }

  function Next(s: Sender, a: Action): Sender
    requires Enabled(s, a)
  {
    match a
    case Enqueue(message) =>
      s.(out := Push(s.out, message),
         posters := if s.out.sending then s.posters else s.posters + 1,
         enqueued := s.enqueued + [message])
    case CallSend(accepted) =>
      var (out, posting) := Post(s.out, accepted);
      s.(out := out,
         posters := s.posters - 1,
         flights := if posting.Accepted? then s.flights + [Posted(posting.data)] else s.flights,
         closed := posting.Refused?)
    case Transfer(i, n) =>
      s.(flights := s.flights[i := Done(n)], wire := s.wire + s.flights[i].data[..n])
    case Complete(i) =>
      var n := s.flights[i].n;
      var flights := s.flights[..i] + s.flights[i + 1..];
      if n == 0 then s.(flights := flights, closed := true)
      else
        var (out, again) := Finish(s.out, n);
        s.(out := out, posters := if again then s.posters + 1 else s.posters, flights := flights)
  }

  predicate LegalRun(s: Sender, acts: seq<Action>)
    decreases acts, 0
  {
    acts == [] || (LegalRun(s, acts[..|acts| - 1]) && Enabled(Run(s, acts[..|acts| - 1]), acts[|acts| - 1]))
  }

  function Run(s: Sender, acts: seq<Action>): Sender
    requires LegalRun(s, acts)
    decreases acts, 1
  {
    if acts == [] then s else Next(Run(s, acts[..|acts| - 1]), acts[|acts| - 1])
  }

  // ----- the invariant -----

  predicate OffsetsFit(queue: seq<Item>) {
    && (queue != [] ==> queue[0].off < |queue[0].buf| || queue[0].off == 0)
    && (forall i :: 0 < i < |queue| ==> queue[i].off == 0)
  }

  /** Bytes of the front message that are on the wire although their completion has not been handled. */
  function Ahead(s: Sender): nat {
    if |s.flights| == 1 && s.flights[0].Done? then s.flights[0].n else 0
  }

  predicate FlightFits(s: Sender) {
    s.flights != [] ==>
      && s.out.queue != []
      && var unsent := Unsent(s.out.queue[0]);
         match s.flights[0]
         case Posted(data) => data == unsent
         case Done(n) => n <= |unsent|
  }

  /**
   * One send at a time: the flag, the queue, the thread about to post and the send under way agree.
   * No byte is lost, repeated or reordered.
   */
  ghost predicate Inv(s: Sender) {
    && s.wire <= Concat(s.enqueued)
    && (!s.closed ==>
          && (s.out.sending <==> s.out.queue != [])
          && s.posters + |s.flights| == (if s.out.sending then 1 else 0)
          && OffsetsFit(s.out.queue)
          && FlightFits(s)
          && Ahead(s) <= |Backlog(s.out.queue)|
          && s.wire + Backlog(s.out.queue)[Ahead(s)..] == Concat(s.enqueued))
  }

  lemma {:induction false} BacklogAppend(a: seq<Item>, b: seq<Item>)
    ensures Backlog(a + b) == Backlog(a) + Backlog(b)
  {
    if a == [] {
      assert a + b == b;
    } else {
      assert (a + b)[1..] == a[1..] + b;
      BacklogAppend(a[1..], b);
    }
  }

  lemma StepInv(s: Sender, a: Action)
    requires Inv(s) && Enabled(s, a)
    ensures Inv(Next(s, a))
  {
    match a
    case Enqueue(message) => EnqueueInv(s, message);
    case CallSend(accepted) => assert |s.flights| == 0;
    case Transfer(i, n) => TransferInv(s, i, n);
    case Complete(i) => CompleteInv(s, i);
  }

  lemma EnqueueInv(s: Sender, message: seq<byte>)
    requires Inv(s) && !s.closed
    ensures Inv(Next(s, Enqueue(message)))
  {
    PushFits(s, message);
    PushBytes(s, message);
  }

  lemma PushBytes(s: Sender, message: seq<byte>)
    requires Inv(s) && !s.closed
    ensures Ahead(s) <= |Backlog(Push(s.out, message).queue)|
    ensures s.wire + Backlog(Push(s.out, message).queue)[Ahead(s)..] == Concat(s.enqueued + [message])
  {
    var rest := Backlog(s.out.queue)[Ahead(s)..];
    PushBacklog(s.out.queue, message, Ahead(s));
    ConcatSnoc(s.enqueued, message);
    assert s.wire + (rest + message) == (s.wire + rest) + message;
  }

  lemma PushFits(s: Sender, message: seq<byte>)
    requires FlightFits(s) && OffsetsFit(s.out.queue)
    ensures FlightFits(s.(out := Push(s.out, message)))
    ensures OffsetsFit(Push(s.out, message).queue)
  {
    assert s.out.queue != [] ==> (s.out.queue + [Item(message, 0)])[0] == s.out.queue[0];
  }

  lemma PushBacklog(queue: seq<Item>, message: seq<byte>, ahead: nat)
    requires ahead <= |Backlog(queue)|
    ensures ahead <= |Backlog(queue + [Item(message, 0)])|
    ensures Backlog(queue + [Item(message, 0)])[ahead..] == Backlog(queue)[ahead..] + message
  {
    BacklogAppend(queue, [Item(message, 0)]);
    assert Backlog([Item(message, 0)]) == message;
  }

  lemma TransferInv(s: Sender, i: nat, n: nat)
    requires Inv(s) && Enabled(s, Transfer(i, n))
    ensures Inv(Next(s, Transfer(i, n)))
  {
    assert |s.flights| == 1 && i == 0;
    var b := Backlog(s.out.queue);
    assert s.flights[0].data[..n] == b[..n];
    assert s.wire + b == (s.wire + b[..n]) + b[n..];
  }

  lemma CompleteInv(s: Sender, i: nat)
    requires Inv(s) && Enabled(s, Complete(i))
    ensures Inv(Next(s, Complete(i)))
  {
    assert |s.flights| == 1 && i == 0;
    var n := s.flights[0].n;
    if n > 0 {
      FinishBacklog(s.out, n);
    }
  }

  /** Finishing `n` bytes takes exactly those bytes off the backlog. */
  lemma FinishBacklog(o: Outbox, n: nat)
    requires o.queue != [] && OffsetsFit(o.queue) && 0 < n <= |Unsent(o.queue[0])| && o.sending
    ensures n <= |Backlog(o.queue)|
    ensures Backlog(Finish(o, n).0.queue) == Backlog(o.queue)[n..]
    ensures OffsetsFit(Finish(o, n).0.queue)
    ensures Finish(o, n).1 == Finish(o, n).0.sending == (Finish(o, n).0.queue != [])
  {
    var front, rest := o.queue[0], o.queue[1..];
    assert o.queue == [front] + rest;
    if front.off + n >= |front.buf| {
      FrontDone(front, rest);
      FinishDone(front, rest, n);
    } else {
      FrontAdvances(front, rest, n);
      FrontOffsets(front, rest, n);
      FinishPart(front, rest, n);
    }
  }

  lemma FinishDone(front: Item, rest: seq<Item>, n: nat)
    requires front.off + n >= |front.buf|
    ensures Finish(Outbox([front] + rest, true), n) == (Outbox(rest, rest != []), rest != [])
  {
    assert ([front] + rest)[1..] == rest;
  }

  lemma FinishPart(front: Item, rest: seq<Item>, n: nat)
    requires front.off + n < |front.buf|
    ensures Finish(Outbox([front] + rest, true), n) == (Outbox([front.(off := front.off + n)] + rest, true), true)
  {
    assert ([front] + rest)[1..] == rest;
  }

  lemma FrontDone(front: Item, rest: seq<Item>)
    requires OffsetsFit([front] + rest)
    ensures Backlog(rest) == Backlog([front] + rest)[|Unsent(front)|..]
    ensures OffsetsFit(rest)
  {
    BacklogCons(front, rest);
    assert forall i {:trigger rest[i]} :: 0 <= i < |rest| ==> rest[i] == ([front] + rest)[i + 1];
  }

  lemma BacklogCons(item: Item, rest: seq<Item>)
    ensures Backlog([item] + rest) == Unsent(item) + Backlog(rest)
  {
    assert ([item] + rest)[1..] == rest;
  }

  lemma UnsentAdvances(item: Item, n: nat)
    requires item.off + n < |item.buf|
    ensures n <= |Unsent(item)| && Unsent(item.(off := item.off + n)) == Unsent(item)[n..]
  {
    DropTwice(item.buf, item.off, n);
  }

  lemma FrontAdvances(front: Item, rest: seq<Item>, n: nat)
    requires front.off + n < |front.buf|
    ensures n <= |Backlog([front] + rest)|
    ensures Backlog([front.(off := front.off + n)] + rest) == Backlog([front] + rest)[n..]
  {
    BacklogCons(front.(off := front.off + n), rest);
    BacklogCons(front, rest);
    UnsentAdvances(front, n);
    DropInside(Unsent(front), Backlog(rest), n);
  }

  lemma FrontOffsets(front: Item, rest: seq<Item>, n: nat)
    requires front.off + n < |front.buf| && OffsetsFit([front] + rest)
    ensures OffsetsFit([front.(off := front.off + n)] + rest)
  {
    assert forall i {:trigger rest[i]} :: 0 <= i < |rest| ==> rest[i] == ([front] + rest)[i + 1];
  }

  lemma {:induction false} RunInv(s: Sender, acts: seq<Action>)
    requires Inv(s) && LegalRun(s, acts)
    ensures Inv(Run(s, acts))
  {
    if acts != [] {
      RunInv(s, acts[..|acts| - 1]);
      StepInv(Run(s, acts[..|acts| - 1]), acts[|acts| - 1]);
    }
  }

  // ----- what holds in every run -----

  /**
   * Every run of a session that began idle: at most one send is outstanding, what is on the wire is a
   * prefix of everything passed to SendPacket, and when nothing is queued all of it is on the wire.
   * Send and OnSendCompleted never find the queue empty.
   */
  lemma SendMachine(acts: seq<Action>)
    requires LegalRun(Begin(IDLE_OUTBOX), acts)
    ensures var s := Run(Begin(IDLE_OUTBOX), acts);
            && s.wire <= Concat(s.enqueued)
            && (!s.closed ==>
                  && |s.flights| <= 1
                  && (s.out.sending <==> s.out.queue != [])
                  && (!s.out.sending ==> s.wire == Concat(s.enqueued))
                  && (s.posters > 0 || s.flights != [] ==> s.out.queue != []))
  {
    RunInv(Begin(IDLE_OUTBOX), acts);
  }

  /**
   * Which runs there are: until the session closes a message can be queued at any moment, and the one
   * thread or send that is under way can go on, whether or not the system accepts the post and however
   * many of the bytes go out.
   */
  lemma GoesOn(acts: seq<Action>, message: seq<byte>, accepted: bool, n: nat)
    requires LegalRun(Begin(IDLE_OUTBOX), acts) && !Run(Begin(IDLE_OUTBOX), acts).closed
    ensures LegalRun(Begin(IDLE_OUTBOX), acts + [Enqueue(message)])
    ensures var out := Run(Begin(IDLE_OUTBOX), acts).out;
            out.queue != [] ==>
              || LegalRun(Begin(IDLE_OUTBOX), acts + [CallSend(accepted)])
              || (n <= |Unsent(out.queue[0])| ==> LegalRun(Begin(IDLE_OUTBOX), acts + [Transfer(0, n)]))
              || LegalRun(Begin(IDLE_OUTBOX), acts + [Complete(0)])
  {
    RunInv(Begin(IDLE_OUTBOX), acts);
    MayFollow(Begin(IDLE_OUTBOX), acts, Enqueue(message));
    OneMayFollow(Begin(IDLE_OUTBOX), acts, Run(Begin(IDLE_OUTBOX), acts), accepted, n);
  }

  lemma OneMayFollow(s: Sender, acts: seq<Action>, m: Sender, accepted: bool, n: nat)
    requires LegalRun(s, acts) && Run(s, acts) == m && Inv(m) && !m.closed
    ensures m.out.queue != [] ==>
              || LegalRun(s, acts + [CallSend(accepted)])
              || (n <= |Unsent(m.out.queue[0])| ==> LegalRun(s, acts + [Transfer(0, n)]))
              || LegalRun(s, acts + [Complete(0)])
  {
    if m.out.queue != [] {
      OneGoesOn(m, accepted, n);
      MayFollow(s, acts, CallSend(accepted));
      MayFollow(s, acts, Transfer(0, n));
      MayFollow(s, acts, Complete(0));
    }
  }

  lemma OneGoesOn(s: Sender, accepted: bool, n: nat)
    requires Inv(s) && !s.closed && s.out.queue != []
    ensures || Enabled(s, CallSend(accepted))
            || (n <= |Unsent(s.out.queue[0])| ==> Enabled(s, Transfer(0, n)))
            || Enabled(s, Complete(0))
  {
  }

  lemma MayFollow(s: Sender, acts: seq<Action>, a: Action)
    requires LegalRun(s, acts)
    ensures LegalRun(s, acts + [a]) <==> Enabled(Run(s, acts), a)
  {
    assert (acts + [a])[..|acts + [a]| - 1] == acts;
  }

  /** How far a session is from idle: unsent bytes first, then the stage of the send under way. */
  function Distance(s: Sender): nat {
    3 * |Backlog(s.out.queue)| + 2 * s.posters
      + (if s.flights != [] && s.flights[0].Posted? then 1 else 0)
  }

  /** Until everything queued is sent, some step can be taken. */
  lemma NeverStuck(s: Sender) returns (a: Action)
    requires Inv(s) && !s.closed && s.out.queue != []
    ensures Enabled(s, a) && !a.Enqueue?
  {
    a := if s.posters > 0 then CallSend(true)
         else if s.flights[0].Posted? then Transfer(0, |s.flights[0].data|)
         else Complete(0);
  }

  /** Every step that does not queue more brings the session nearer to idle, or closes it. */
  lemma Drains(s: Sender, a: Action)
    requires Inv(s) && Enabled(s, a) && !a.Enqueue?
    ensures Next(s, a).closed || Distance(Next(s, a)) < Distance(s)
  {
    if a.Complete? {
      assert |s.flights| == 1 && a.i == 0;
      if s.flights[0].n > 0 {
        FinishBacklog(s.out, s.flights[0].n);
      }
    }
  }

  /**
   * With nothing more queued, a session that stays open takes a bounded number of further steps, and by
   * NeverStuck it can take one until it is idle.
   */
  lemma {:induction false} DrainsInTime(s: Sender, acts: seq<Action>)
    requires Inv(s) && LegalRun(s, acts) && !Run(s, acts).closed
    requires forall i :: 0 <= i < |acts| ==> !acts[i].Enqueue?
    ensures |acts| + Distance(Run(s, acts)) <= Distance(s)
  {
    if acts != [] {
      var init, last := acts[..|acts| - 1], acts[|acts| - 1];
      DrainsInTime(s, init);
      RunInv(s, init);
      Drains(Run(s, init), last);
    }
  }

  lemma RunSnoc(s: Sender, acts: seq<Action>, a: Action)
    requires LegalRun(s, acts) && Enabled(Run(s, acts), a)
    ensures LegalRun(s, acts + [a]) && Run(s, acts + [a]) == Next(Run(s, acts), a)
  {
    assert (acts + [a])[..|acts + [a]| - 1] == acts;
  }

  /** The same with the states before and after the step given. */
  lemma StepTo(s: Sender, acts: seq<Action>, m: Sender, a: Action, next: Sender)
    requires LegalRun(s, acts) && Run(s, acts) == m && Enabled(m, a) && Next(m, a) == next
    ensures LegalRun(s, acts + [a]) && Run(s, acts + [a]) == next
  {
    RunSnoc(s, acts, a);
  }

  // ----- a run that sends messages -----

  /** Nothing queued, nothing under way. */
  function AtRest(wire: seq<byte>, enqueued: seq<seq<byte>>): Sender {
    Sender(IDLE_OUTBOX, 0, [], wire, enqueued, false)
  }

  /** The messages one by one, each in a single send. */
  function SendEach(messages: seq<seq<byte>>): seq<Action> {
    if messages == [] then []
    else
      var init, last := messages[..|messages| - 1], messages[|messages| - 1];
      SendEach(init) + [Enqueue(last)] + [CallSend(true)] + [Transfer(0, |last|)] + [Complete(0)]
  }

  lemma {:induction false} SendEachSends(messages: seq<seq<byte>>)
    requires [] !in messages
    ensures LegalRun(Begin(IDLE_OUTBOX), SendEach(messages))
    ensures Run(Begin(IDLE_OUTBOX), SendEach(messages)) == AtRest(Concat(messages), messages)
  {
    if messages == [] {
      assert Concat([]) == [];
    } else {
      var init, last := messages[..|messages| - 1], messages[|messages| - 1];
      assert messages == init + [last];
      SendEachSends(init);
      SendsOne(SendEach(init), Concat(init), init, last);
      ConcatSnoc(init, last);
    }
  }

  lemma SendsOne(acts: seq<Action>, wire: seq<byte>, enqueued: seq<seq<byte>>, message: seq<byte>)
    requires LegalRun(Begin(IDLE_OUTBOX), acts) && Run(Begin(IDLE_OUTBOX), acts) == AtRest(wire, enqueued)
    requires message != []
    ensures var more := acts + [Enqueue(message)] + [CallSend(true)] + [Transfer(0, |message|)] + [Complete(0)];
            && LegalRun(Begin(IDLE_OUTBOX), more)
            && Run(Begin(IDLE_OUTBOX), more) == AtRest(wire + message, enqueued + [message])
  {
    var s := Begin(IDLE_OUTBOX);
    var queued := Sender(Outbox([Item(message, 0)], true), 1, [], wire, enqueued + [message], false);
    var posted := queued.(posters := 0, flights := [Posted(message)]);
    var done := posted.(flights := [Done(|message|)], wire := wire + message);
    assert Unsent(Item(message, 0)) == message && message[..|message|] == message;
    StepTo(s, acts, AtRest(wire, enqueued), Enqueue(message), queued);
    StepTo(s, acts + [Enqueue(message)], queued, CallSend(true), posted);
    StepTo(s, acts + [Enqueue(message)] + [CallSend(true)], posted, Transfer(0, |message|), done);
    StepTo(s, acts + [Enqueue(message)] + [CallSend(true)] + [Transfer(0, |message|)], done, Complete(0),
           AtRest(wire + message, enqueued + [message]));
  }
}
