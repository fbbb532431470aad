/**
 * Release does not ask who holds its argument, and Disconnect does not ask whether it has run before.
 * Here threads release any session at any time: when does every session stay in one place?
 */
module UncheckedRelease {
  import opened SessionBody
  import opened AtomicPool
  import opened ConcurrentPool

  /** An interleaving in which threads release whatever they like. */
  predicate PossibleTrace(s: State, acts: seq<Action>)
    decreases acts, 0
  {
    acts == [] ||
    (PossibleTrace(s, acts[..|acts| - 1]) && Possible(Reached(s, acts[..|acts| - 1]), acts[|acts| - 1]))
  }

  function Reached(s: State, acts: seq<Action>): State
    requires PossibleTrace(s, acts)
    decreases acts, 1
  {
    if acts == [] then s else Next(Reached(s, acts[..|acts| - 1]), acts[|acts| - 1])
  }

  lemma ReachedSnoc(s: State, acts: seq<Action>, a: Action)
    requires PossibleTrace(s, acts) && Possible(Reached(s, acts), a)
    ensures PossibleTrace(s, acts + [a]) && Reached(s, acts + [a]) == Next(Reached(s, acts), a)
  {
    assert (acts + [a])[..|acts + [a]| - 1] == acts;
  }

  /** Any thread outside its calls can release any session, at any moment. */
  lemma ReleaseAnytime(n: nat, threads: nat, acts: seq<Action>, t: ThreadId, x: SessionId)
    requires PossibleTrace(Start(n, threads), acts) && t < threads
    ensures |Reached(Start(n, threads), acts).pcs| == threads
    ensures PossibleTrace(Start(n, threads), acts + [CallPut(t, x)])
       <==> Reached(Start(n, threads), acts).pcs[t].Outside?
  {
    SameThreadsReached(Start(n, threads), acts);
    assert (acts + [CallPut(t, x)])[..|acts + [CallPut(t, x)]| - 1] == acts;
  }

  lemma {:induction false} SameThreadsReached(s: State, acts: seq<Action>)
    requires PossibleTrace(s, acts)
    ensures |Reached(s, acts).pcs| == |s.pcs| && |Reached(s, acts).held| == |s.held|
  {
    if acts != [] {
      SameThreadsReached(s, acts[..|acts| - 1]);
    }
  }

  /** Each release is by a thread that holds the session at that moment. */
  predicate HeldWhenReleased(s: State, acts: seq<Action>)
    requires PossibleTrace(s, acts)
  {
    acts == [] ||
    (var init, last := acts[..|acts| - 1], acts[|acts| - 1];
     HeldWhenReleased(s, init) && (last.CallPut? ==> last.x in Reached(s, init).held[last.t]))
  }

  /** Every session is in one place in every state of the interleaving. */
  ghost predicate AlwaysOnePlace(s: State, acts: seq<Action>)
    requires PossibleTrace(s, acts)
  {
    OnePlace(Reached(s, acts)) && (acts != [] ==> AlwaysOnePlace(s, acts[..|acts| - 1]))
  }

  // ----- one release -----

  /**
   * Where every session is in one place, a call of Release leaves it so exactly when the caller itself
   * holds the session. That another thread holds it does not help: that thread keeps its claim.
   */
  lemma PutKeepsOnePlace(s: State, t: ThreadId, x: SessionId)
    requires OnePlace(s) && Possible(s, CallPut(t, x))
    ensures OnePlace(Next(s, CallPut(t, x))) <==> x in s.held[t]
  {
    if x in s.held[t] {
      HeldPut(s, t, x);
    } else {
      UnheldPut(s, t, x);
    }
  }

  lemma HeldPut(s: State, t: ThreadId, x: SessionId)
    requires OnePlace(s) && Possible(s, CallPut(t, x)) && x in s.held[t]
    ensures OnePlace(Next(s, CallPut(t, x)))
  {
    var n := Next(s, CallPut(t, x));
    forall u: ThreadId | u < |s.pcs|
      ensures Has(n, u) == Has(s, u)
    {
      HeldPutHas(s, t, x, u);
    }
    forall u: ThreadId | u < |s.pcs|
      ensures n.held[u] !! InCall(n.pcs[u])
    {
      HeldPutHas(s, t, x, u);
    }
    SamePlaces(s, n);
  }

  /** What counts is the stack and what each thread has. */
  lemma SamePlaces(s: State, n: State)
    requires OnePlace(s) && |n.held| == |n.pcs| == |s.pcs|
    requires n.stack == s.stack && n.created == s.created
    requires forall u: ThreadId :: u < |s.pcs| ==> Has(n, u) == Has(s, u)
    requires forall u: ThreadId :: u < |s.pcs| ==> n.held[u] !! InCall(n.pcs[u])
    ensures OnePlace(n)
  {
    forall u: ThreadId, y: SessionId | u < |n.pcs| && y in Has(n, u)
      ensures y !in n.stack && y < n.created
    {
      HasOut(s, u, y);
    }
    forall u: ThreadId, v: ThreadId | u < v < |n.pcs|
      ensures Has(n, u) !! Has(n, v)
    {
      assert Has(n, u) == Has(s, u) && Has(n, v) == Has(s, v);
    }
    forall y: SessionId | y < n.created
      ensures y in n.stack || exists u: ThreadId :: u < |n.pcs| && y in Has(n, u)
    {
      if y !in n.stack {
        var u: ThreadId :| u < |s.pcs| && y in Has(s, u);
        assert y in Has(n, u);
      }
    }
  }

  /** The session moves from what `t` holds into its call. */
  lemma HeldPutHas(s: State, t: ThreadId, x: SessionId, u: ThreadId)
    requires Exclusive(s) && Possible(s, CallPut(t, x)) && x in s.held[t] && u < |s.pcs|
    ensures Has(Next(s, CallPut(t, x)), u) == Has(s, u)
    ensures Next(s, CallPut(t, x)).held[u] !! InCall(Next(s, CallPut(t, x)).pcs[u])
  {
  }

  lemma UnheldPut(s: State, t: ThreadId, x: SessionId)
    requires OnePlace(s) && Possible(s, CallPut(t, x)) && x !in s.held[t]
    ensures !Exclusive(Next(s, CallPut(t, x)))
  {
    var n := Next(s, CallPut(t, x));
    assert x in InCall(n.pcs[t]);
    if x < s.created && x !in s.stack {
      var u: ThreadId :| u < |s.pcs| && x in Has(s, u);
      if Exclusive(n) {
        HasApart(n, t, u, x);
      }
    } else {
      if Exclusive(n) {
        HasOut(n, t, x);
      }
    }
  }

  /** What a whole Release by `t` does when no other thread is in the section. */
  function Put(s: State, t: ThreadId, x: SessionId): State
    requires t < |s.held|
  {
    s.(stack := s.stack + [x], bodies := Store(s.bodies, x, Reset), held := s.held[t := s.held[t] - {x}])
  }

  /** What a whole Get by `t` does then, with a session pooled. */
  function Get(s: State, t: ThreadId): State
    requires t < |s.held| && s.stack != []
  {
    var last := |s.stack| - 1;
    s.(stack := s.stack[..last], held := s.held[t := s.held[t] + {s.stack[last]}])
  }

  /** A whole Release, and a whole Get, after `acts`. */
  function ThenPut(acts: seq<Action>, t: ThreadId, x: SessionId): seq<Action> {
    acts + [CallPut(t, x)] + [Micro(t)] + [Micro(t)] + [Micro(t)] + [Micro(t)] + [Micro(t)] + [Micro(t)]
  }

  function ThenGet(acts: seq<Action>, t: ThreadId): seq<Action> {
    acts + [CallGet(t)] + [Micro(t)] + [Micro(t)] + [Micro(t)] + [Micro(t)] + [Micro(t)]
  }

  predicate Quiet(s: State, t: ThreadId) {
    s.lock.Free? && t < |s.pcs| == |s.held| && s.pcs[t].Outside?
  }

  /** One micro-step between two given states. */
  lemma MicroRun(s: State, acts: seq<Action>, m: State, t: ThreadId, next: State)
    requires PossibleTrace(s, acts) && Reached(s, acts) == m && Possible(m, Micro(t)) && MicroNext(m, t) == next
    ensures PossibleTrace(s, acts + [Micro(t)]) && Reached(s, acts + [Micro(t)]) == next
  {
    ReachedSnoc(s, acts, Micro(t));
  }

  lemma PutRun(s: State, acts: seq<Action>, t: ThreadId, x: SessionId)
    requires PossibleTrace(s, acts) && Quiet(Reached(s, acts), t)
    ensures PossibleTrace(s, ThenPut(acts, t, x))
    ensures Reached(s, ThenPut(acts, t, x)) == Put(Reached(s, acts), t, x)
  {
    var m := Reached(s, acts);
    var begun := acts + [CallPut(t, x)] + [Micro(t)];
    var reset := begun + [Micro(t)] + [Micro(t)] + [Micro(t)];
    var m1 := m.(lock := By(t), pcs := m.pcs[t := PutInit(x)], held := m.held[t := m.held[t] - {x}]);
    var m2 := m1.(bodies := Store(m.bodies, x, Reset), pcs := m.pcs[t := PutPush(x)]);
    PutBegins(s, acts, m, t, x);
    PutResets(s, begun, m1, t, x);
    SameSpot(m.pcs, t, PutInit(x), PutPush(x));
    PutEnds(s, reset, m2, t, x);
    SameSpot(m.pcs, t, PutPush(x), Outside);
  }

  /** Of two stores to one place only the last counts, and storing what is there changes nothing. */
  lemma SameSpot<T>(a: seq<T>, t: nat, x: T, y: T)
    requires t < |a|
    ensures a[t := x][t := y] == a[t := y]
    ensures a[t] == y ==> a[t := y] == a
  {
  }

  lemma PutBegins(s: State, acts: seq<Action>, m: State, t: ThreadId, x: SessionId)
    requires PossibleTrace(s, acts) && Reached(s, acts) == m && Quiet(m, t)
    ensures PossibleTrace(s, acts + [CallPut(t, x)] + [Micro(t)])
    ensures Reached(s, acts + [CallPut(t, x)] + [Micro(t)])
         == m.(lock := By(t), pcs := m.pcs[t := PutInit(x)], held := m.held[t := m.held[t] - {x}])
  {
    var called := Next(m, CallPut(t, x));
    ReachedSnoc(s, acts, CallPut(t, x));
    SameSpot(m.pcs, t, PutWait(x), PutInit(x));
    MicroRun(s, acts + [CallPut(t, x)], called, t, called.(lock := By(t), pcs := m.pcs[t := PutInit(x)]));
  }

  lemma ThreeStores(bodies: map<SessionId, Body>, x: SessionId)
    ensures Store(Store(Store(bodies, x, ClearRead), x, ClearWrite), x, ClearSocket) == Store(bodies, x, Reset)
  {
  }

  lemma PutResets(s: State, acts: seq<Action>, m: State, t: ThreadId, x: SessionId)
    requires PossibleTrace(s, acts) && Reached(s, acts) == m
    requires t < |m.pcs| == |m.held| && m.pcs[t] == PutInit(x)
    ensures PossibleTrace(s, acts + [Micro(t)] + [Micro(t)] + [Micro(t)])
    ensures Reached(s, acts + [Micro(t)] + [Micro(t)] + [Micro(t)])
         == m.(bodies := Store(m.bodies, x, Reset), pcs := m.pcs[t := PutPush(x)])
  {
    var once := Store(m.bodies, x, ClearRead);
    var twice := Store(once, x, ClearWrite);
    var m1 := m.(bodies := once, pcs := m.pcs[t := PutWrite(x)]);
    var m2 := m.(bodies := twice, pcs := m.pcs[t := PutSocket(x)]);
    var m3 := m.(bodies := Store(m.bodies, x, Reset), pcs := m.pcs[t := PutPush(x)]);
    SameSpot(m.pcs, t, PutWrite(x), PutSocket(x));
    SameSpot(m.pcs, t, PutSocket(x), PutPush(x));
    ThreeStores(m.bodies, x);
    MicroRun(s, acts, m, t, m1);
    MicroRun(s, acts + [Micro(t)], m1, t, m2);
    MicroRun(s, acts + [Micro(t)] + [Micro(t)], m2, t, m3);
  }

  lemma PutEnds(s: State, acts: seq<Action>, m: State, t: ThreadId, x: SessionId)
    requires PossibleTrace(s, acts) && Reached(s, acts) == m
    requires t < |m.pcs| == |m.held| && m.pcs[t] == PutPush(x)
    ensures PossibleTrace(s, acts + [Micro(t)] + [Micro(t)])
    ensures Reached(s, acts + [Micro(t)] + [Micro(t)])
         == m.(lock := Free, stack := m.stack + [x], pcs := m.pcs[t := Outside])
  {
    var m1 := m.(stack := m.stack + [x], pcs := m.pcs[t := PutExit(x)]);
    SameSpot(m.pcs, t, PutExit(x), Outside);
    MicroRun(s, acts, m, t, m1);
    MicroRun(s, acts + [Micro(t)], m1, t, m1.(lock := Free, pcs := m.pcs[t := Outside]));
  }

  lemma GetRun(s: State, acts: seq<Action>, t: ThreadId)
    requires PossibleTrace(s, acts) && Quiet(Reached(s, acts), t) && Reached(s, acts).stack != []
    ensures PossibleTrace(s, ThenGet(acts, t))
    ensures Reached(s, ThenGet(acts, t)) == Get(Reached(s, acts), t)
  {
    var m := Reached(s, acts);
    var begun := acts + [CallGet(t)] + [Micro(t)] + [Micro(t)];
    var m1 := m.(lock := By(t), pcs := m.pcs[t := GetTop(false)]);
    GetBegins(s, acts, m, t);
    GetEnds(s, begun, m1, t);
    SameSpot(m.pcs, t, GetTop(false), Outside);
  }

  lemma GetBegins(s: State, acts: seq<Action>, m: State, t: ThreadId)
    requires PossibleTrace(s, acts) && Reached(s, acts) == m && Quiet(m, t) && m.stack != []
    ensures PossibleTrace(s, acts + [CallGet(t)] + [Micro(t)] + [Micro(t)])
    ensures Reached(s, acts + [CallGet(t)] + [Micro(t)] + [Micro(t)])
         == m.(lock := By(t), pcs := m.pcs[t := GetTop(false)])
  {
    var m1 := m.(pcs := m.pcs[t := GetWait]);
    var m2 := m.(lock := By(t), pcs := m.pcs[t := GetTest]);
    ReachedSnoc(s, acts, CallGet(t));
    SameSpot(m.pcs, t, GetWait, GetTest);
    SameSpot(m.pcs, t, GetTest, GetTop(false));
    MicroRun(s, acts + [CallGet(t)], m1, t, m2);
    MicroRun(s, acts + [CallGet(t)] + [Micro(t)], m2, t, m2.(pcs := m.pcs[t := GetTop(false)]));
  }

  lemma GetEnds(s: State, acts: seq<Action>, m: State, t: ThreadId)
    requires PossibleTrace(s, acts) && Reached(s, acts) == m
    requires t < |m.pcs| == |m.held| && m.pcs[t] == GetTop(false) && m.stack != []
    ensures PossibleTrace(s, acts + [Micro(t)] + [Micro(t)] + [Micro(t)])
    ensures Reached(s, acts + [Micro(t)] + [Micro(t)] + [Micro(t)])
         == Get(m, t).(lock := Free, pcs := m.pcs[t := Outside])
  {
    var x := m.stack[|m.stack| - 1];
    var m1 := m.(pcs := m.pcs[t := GetPop(x, false)]);
    var m2 := m.(stack := m.stack[..|m.stack| - 1], pcs := m.pcs[t := GetExit(x)]);
    SameSpot(m.pcs, t, GetPop(x, false), GetExit(x));
    SameSpot(m.pcs, t, GetExit(x), Outside);
    MicroRun(s, acts, m, t, m1);
    MicroRun(s, acts + [Micro(t)], m1, t, m2);
    MicroRun(s, acts + [Micro(t)] + [Micro(t)], m2, t, Get(m, t).(lock := Free, pcs := m.pcs[t := Outside]));
  }

  /**
   * The damage lasts: with the section free, once a whole Release has returned, every session is in
   * one place exactly when the caller held the one it released.
   */
  lemma WholeRelease(s: State, t: ThreadId, x: SessionId)
    requires OnePlace(s) && Quiet(s, t)
    ensures PossibleTrace(s, ThenPut([], t, x))
    ensures OnePlace(Reached(s, ThenPut([], t, x))) <==> x in s.held[t]
  {
    PutRun(s, [], t, x);
    if x in s.held[t] {
      HeldReleaseExclusive(s, t, x);
      HeldReleasePlaced(s, t, x);
    } else {
      UnheldRelease(s, t, x);
    }
  }

  /** What threads have after the release of a session that `t` held. */
  lemma HeldReleaseHas(s: State, t: ThreadId, x: SessionId, u: ThreadId)
    requires Exclusive(s) && Quiet(s, t) && x in s.held[t] && u < |s.pcs|
    ensures Has(Put(s, t, x), u) == Has(s, u) - {x}
    ensures Put(s, t, x).held[u] !! InCall(s.pcs[u])
  {
    assert x in Has(s, t);
    if u != t && x in Has(s, u) {
      HasApart(s, t, u, x);
    }
  }

  lemma HeldReleaseExclusive(s: State, t: ThreadId, x: SessionId)
    requires Exclusive(s) && Quiet(s, t) && x in s.held[t]
    ensures Exclusive(Put(s, t, x))
  {
    var n := Put(s, t, x);
    HasOut(s, t, x);
    PushedOnce(s.stack, x);
    forall u: ThreadId | u < |n.pcs|
      ensures Has(n, u) == Has(s, u) - {x} && n.held[u] !! InCall(n.pcs[u])
    {
      HeldReleaseHas(s, t, x, u);
    }
    forall u: ThreadId, y: SessionId | u < |n.pcs| && y in Has(n, u)
      ensures y !in n.stack && y < n.created
    {
      HasOut(s, u, y);
    }
  }

  lemma HeldReleasePlaced(s: State, t: ThreadId, x: SessionId)
    requires OnePlace(s) && Quiet(s, t) && x in s.held[t]
    ensures Placed(Put(s, t, x))
  {
    var n := Put(s, t, x);
    PushedOnce(s.stack, x);
    forall y: SessionId | y < n.created
      ensures y in n.stack || exists u: ThreadId :: u < |n.pcs| && y in Has(n, u)
    {
      if y != x && y !in s.stack {
        var u: ThreadId :| u < |s.pcs| && y in Has(s, u);
        HeldReleaseHas(s, t, x, u);
        assert y in Has(n, u);
      }
    }
  }

  lemma PushedOnce(stack: seq<SessionId>, x: SessionId)
    ensures forall y: SessionId :: y in stack + [x] <==> y in stack || y == x
    ensures Distinct(stack + [x]) <==> Distinct(stack) && x !in stack
  {
    if x in stack {
      var i :| 0 <= i < |stack| && stack[i] == x;
      assert (stack + [x])[i] == (stack + [x])[|stack|];
    } else if Distinct(stack + [x]) {
      assert forall i :: 0 <= i < |stack| ==> stack[i] == (stack + [x])[i];
    }
  }

  lemma UnheldRelease(s: State, t: ThreadId, x: SessionId)
    requires OnePlace(s) && Quiet(s, t) && x !in s.held[t]
    ensures !Exclusive(Put(s, t, x))
  {
    var n := Put(s, t, x);
    PushedOnce(s.stack, x);
    if x !in s.stack && x < s.created {
      var u: ThreadId :| u < |s.pcs| && x in Has(s, u);
      assert x in Has(n, u);
      if Exclusive(n) {
        HasOut(n, u, x);
      }
    }
  }

  // ----- whole interleavings -----

  lemma {:induction false} HeldIsLegal(s: State, acts: seq<Action>)
    requires PossibleTrace(s, acts) && HeldWhenReleased(s, acts)
    ensures LegalTrace(s, acts) && Trace(s, acts) == Reached(s, acts)
  {
    if acts != [] {
      HeldIsLegal(s, acts[..|acts| - 1]);
    }
  }

  lemma {:induction false} HeldStaysOnePlace(n: nat, threads: nat, acts: seq<Action>)
    requires PossibleTrace(Start(n, threads), acts) && HeldWhenReleased(Start(n, threads), acts)
    ensures AlwaysOnePlace(Start(n, threads), acts)
    decreases |acts|
  {
    HeldIsLegal(Start(n, threads), acts);
    ExclusiveOwnership(n, threads, acts);
    NothingLost(n, threads, acts);
    if acts != [] {
      HeldStaysOnePlace(n, threads, acts[..|acts| - 1]);
    }
  }

  lemma {:induction false} OnePlaceNeedsHeld(s: State, acts: seq<Action>)
    requires PossibleTrace(s, acts) && AlwaysOnePlace(s, acts)
    ensures HeldWhenReleased(s, acts)
  {
    if acts != [] {
      var init, last := acts[..|acts| - 1], acts[|acts| - 1];
      OnePlaceNeedsHeld(s, init);
      if last.CallPut? {
        PutKeepsOnePlace(Reached(s, init), last.t, last.x);
      }
    }
  }

  /**
   * Exclusive ownership, exactly: in an interleaving in which threads release what they like, every
   * session is in one place in every state if and only if every release is by a thread that holds the
   * session at that moment.
   */
  lemma ExclusiveExactlyWhenHeld(n: nat, threads: nat, acts: seq<Action>)
    requires PossibleTrace(Start(n, threads), acts)
    ensures AlwaysOnePlace(Start(n, threads), acts) <==> HeldWhenReleased(Start(n, threads), acts)
  {
    if HeldWhenReleased(Start(n, threads), acts) {
      HeldStaysOnePlace(n, threads, acts);
    }
    if AlwaysOnePlace(Start(n, threads), acts) {
      OnePlaceNeedsHeld(Start(n, threads), acts);
    }
  }

  // ----- runs that break it -----

  /** Thread 1 releases what thread 0 holds, and thread 2 gets it: two threads hold one session. */
  lemma ReleasedByAnother() returns (acts: seq<Action>)
    ensures PossibleTrace(Start(1, 3), acts)
    ensures var s := Reached(Start(1, 3), acts);
            && s.lock.Free? && s.pcs == [Outside, Outside, Outside]
            && |s.held| == 3 && 0 in s.held[0] && 0 in s.held[2]
  {
    var s := Start(1, 3);
    acts := [];
    GetRun(s, acts, 0);
    acts := ThenGet(acts, 0);
    PutRun(s, acts, 1, 0);
    acts := ThenPut(acts, 1, 0);
    GetRun(s, acts, 2);
    acts := ThenGet(acts, 2);
  }

  /**
   * Two completions of one connection report zero bytes and each disconnects. The session is on the
   * stack twice, and the next two threads that ask both get it.
   */
  lemma ReleasedTwice() returns (acts: seq<Action>)
    ensures PossibleTrace(Start(1, 3), acts)
    ensures var s := Reached(Start(1, 3), acts);
            && s.lock.Free? && s.pcs == [Outside, Outside, Outside]
            && |s.held| == 3 && 0 in s.held[1] && 0 in s.held[2]
  {
    var s := Start(1, 3);
    acts := [];
    GetRun(s, acts, 0);
    acts := ThenGet(acts, 0);
    PutRun(s, acts, 0, 0);
    acts := ThenPut(acts, 0, 0);
    PutRun(s, acts, 1, 0);
    acts := ThenPut(acts, 1, 0);
    GetRun(s, acts, 1);
    acts := ThenGet(acts, 1);
    GetRun(s, acts, 2);
    acts := ThenGet(acts, 2);
  }
}
