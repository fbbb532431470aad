/**
 * The pool and the send side together, in any interleaving: the threads run the micro-steps of Get and
 * Release, and meanwhile the send sides of all sessions go on with their lives, on any thread, also of
 * sessions that are pooled.
 */
module Reuse {
  import opened SessionBody
  import opened AtomicPool
  import C = ConcurrentPool
  import U = UncheckedRelease
  import L = Lives
  import R = Reconnects
  import S = Sending

  /** The pool, and the life of each session to which something has happened. */
  datatype Server = Server(pool: C.State, lives: map<SessionId, L.Life>)

  datatype Step =
    | InPool(a: C.Action)
    | Use(t: ThreadId, x: SessionId, b: L.Action)

  function LifeOf(v: Server, x: SessionId): L.Life {
    if x in v.lives then v.lives[x] else L.NEW_LIFE
  }

  /** The new body has the send side that the session has. */
  predicate KeepsSendSide(bodies: map<SessionId, Body>, x: SessionId, b: Body) {
    x in bodies && b.out == bodies[x].out
  }

  /**
   * A thread attaches a socket only to a session it holds, and releases a session only after Disconnect.
   * Everything else happens to a session on any thread that is not in a pool call.
   */
  predicate Enabled(v: Server, step: Step) {
    match step
    case InPool(a) =>
      && C.Enabled(v.pool, a)
      && !a.Touch?
      && (a.CallPut? ==> LifeOf(v, a.x).phase.Closed?)
      && (a.Write? ==> KeepsSendSide(v.pool.bodies, a.x, a.b))
    case Use(t, x, b) =>
      && C.Enabled(v.pool, C.Touch(t, x, S.IDLE_OUTBOX))
      && L.Enabled(LifeOf(v, x), b)
      && (b.Attach? || b.GoLive? ==> x in v.pool.held[t])
  }

  /** What the step is for the pool. */
  function PoolStep(v: Server, step: Step): (a: C.Action)
    requires Enabled(v, step)
    ensures C.Enabled(v.pool, a)
  {
    match step
    case InPool(a) => a
    case Use(t, x, b) => C.Touch(t, x, L.Next(LifeOf(v, x), b).sender.out)
  }

  function Next(v: Server, step: Step): Server
    requires Enabled(v, step)
  {
    var pool := C.Next(v.pool, PoolStep(v, step));
    match step
    case InPool(_) => Server(pool, v.lives)
    case Use(_, x, b) => Server(pool, v.lives[x := L.Next(LifeOf(v, x), b)])
  }

  predicate LegalHistory(v: Server, steps: seq<Step>)
    decreases steps, 0
  {
    steps == [] ||
    (LegalHistory(v, steps[..|steps| - 1]) && Enabled(After(v, steps[..|steps| - 1]), steps[|steps| - 1]))
  }

  function After(v: Server, steps: seq<Step>): Server
    requires LegalHistory(v, steps)
    decreases steps, 1
  {
    if steps == [] then v else Next(After(v, steps[..|steps| - 1]), steps[|steps| - 1])
  }

  lemma AfterSnoc(v: Server, steps: seq<Step>, step: Step)
    requires LegalHistory(v, steps) && Enabled(After(v, steps), step)
    ensures LegalHistory(v, steps + [step]) && After(v, steps + [step]) == Next(After(v, steps), step)
  {
    assert (steps + [step])[..|steps + [step]| - 1] == steps;
  }

  function Start(n: nat, threads: nat): Server {
    Server(C.Start(n, threads), map[])
  }

  // ----- the two parts of a history -----

  function PoolSteps(v: Server, steps: seq<Step>): seq<C.Action>
    requires LegalHistory(v, steps)
  {
    if steps == [] then []
    else PoolSteps(v, steps[..|steps| - 1]) + [PoolStep(After(v, steps[..|steps| - 1]), steps[|steps| - 1])]
  }

  /** For the pool a history is an interleaving, so that all results about those hold. */
  lemma {:induction false} HistoryIsTrace(v: Server, steps: seq<Step>)
    requires LegalHistory(v, steps)
    ensures C.LegalTrace(v.pool, PoolSteps(v, steps))
    ensures C.Trace(v.pool, PoolSteps(v, steps)) == After(v, steps).pool
  {
    if steps != [] {
      var init, last := steps[..|steps| - 1], steps[|steps| - 1];
      HistoryIsTrace(v, init);
      var a := PoolStep(After(v, init), last);
      assert (PoolSteps(v, init) + [a])[..|PoolSteps(v, init)|] == PoolSteps(v, init);
    }
  }

  function LifeSteps(steps: seq<Step>, x: SessionId): seq<L.Action> {
    if steps == [] then []
    else
      var init, last := steps[..|steps| - 1], steps[|steps| - 1];
      LifeSteps(init, x) + if last.Use? && last.x == x then [last.b] else []
  }

  /** For each session a history is one of its lives. */
  lemma {:induction false} HistoryIsLife(v: Server, steps: seq<Step>, x: SessionId)
    requires LegalHistory(v, steps)
    ensures L.LegalRun(LifeOf(v, x), LifeSteps(steps, x))
    ensures L.Run(LifeOf(v, x), LifeSteps(steps, x)) == LifeOf(After(v, steps), x)
  {
    if steps != [] {
      var init, last := steps[..|steps| - 1], steps[|steps| - 1];
      HistoryIsLife(v, init, x);
      if last.Use? && last.x == x {
        L.StepTo(LifeOf(v, x), LifeSteps(init, x), LifeOf(After(v, init), x), last.b, LifeOf(After(v, steps), x));
      } else {
        assert LifeSteps(init, x) + [] == LifeSteps(init, x);
      }
    }
  }

  // ----- the invariant -----

  /** The send side in a session's body is that of its life. */
  ghost predicate SameSendSides(v: Server) {
    && (forall x: SessionId :: x in v.pool.bodies ==> x < v.pool.created)
    && (forall x: SessionId :: x in v.lives ==> x in v.pool.bodies)
    && (forall x: SessionId :: x in v.pool.bodies ==> v.pool.bodies[x].out == LifeOf(v, x).sender.out)
  }

  lemma StepSendSides(v: Server, step: Step)
    requires SameSendSides(v) && Enabled(v, step)
    ensures SameSendSides(Next(v, step))
  {
    var m := Next(v, step);
    forall x: SessionId
      ensures x in m.pool.bodies ==> x < m.pool.created && m.pool.bodies[x].out == LifeOf(m, x).sender.out
      ensures x in m.lives ==> x in m.pool.bodies
    {
      if step.Use? {
        UseSendSide(v, step, x);
      } else {
        PoolSendSide(v, step.a, x);
      }
    }
  }

  lemma UseSendSide(v: Server, step: Step, x: SessionId)
    requires SameSendSides(v) && Enabled(v, step) && step.Use?
    ensures var m := Next(v, step);
            && (x in m.pool.bodies ==> x < m.pool.created && m.pool.bodies[x].out == LifeOf(m, x).sender.out)
            && (x in m.lives ==> x in m.pool.bodies)
  {
  }

  lemma PoolSendSide(v: Server, a: C.Action, x: SessionId)
    requires SameSendSides(v) && Enabled(v, InPool(a))
    ensures var s := C.Next(v.pool, a);
            && (x in s.bodies ==> x < s.created && s.bodies[x].out == LifeOf(v, x).sender.out)
            && (x in v.lives ==> x in s.bodies)
  {
  }

  /** A session with a socket is held by a thread. */
  ghost predicate Attended(v: Server) {
    forall x: SessionId :: x in v.lives && !v.lives[x].phase.Closed? ==>
      exists t: ThreadId :: t < |v.pool.held| && x in v.pool.held[t]
  }

  lemma StepAttended(v: Server, step: Step)
    requires Attended(v) && Enabled(v, step)
    ensures Attended(Next(v, step))
  {
    var m := Next(v, step);
    forall x: SessionId | x in m.lives && !m.lives[x].phase.Closed?
      ensures exists t: ThreadId :: t < |m.pool.held| && x in m.pool.held[t]
    {
      var t := HolderBefore(v, step, x);
      HolderAfter(v, step, x, t);
    }
  }

  lemma HolderBefore(v: Server, step: Step, x: SessionId) returns (t: ThreadId)
    requires Attended(v) && Enabled(v, step)
    requires x in Next(v, step).lives && !Next(v, step).lives[x].phase.Closed?
    ensures t < |v.pool.held| && x in v.pool.held[t]
    ensures step.InPool? ==> !LifeOf(v, x).phase.Closed?
  {
    if step.Use? && step.x == x && step.b.Attach? {
      t := step.t;
    } else {
      assert !LifeOf(v, x).phase.Closed?;
      t :| t < |v.pool.held| && x in v.pool.held[t];
    }
  }

  lemma HolderAfter(v: Server, step: Step, x: SessionId, t: ThreadId)
    requires Enabled(v, step) && t < |v.pool.held| && x in v.pool.held[t]
    requires step.InPool? ==> !LifeOf(v, x).phase.Closed?
    ensures exists u: ThreadId :: u < |Next(v, step).pool.held| && x in Next(v, step).pool.held[u]
  {
    var m := Next(v, step).pool;
    if step.InPool? && step.a.Hand? && step.a.x == x && step.a.t == t {
      assert x in m.held[step.a.u];
    } else {
      assert x in m.held[t];
    }
  }

  lemma {:induction false} HistoryInv(n: nat, threads: nat, steps: seq<Step>)
    requires LegalHistory(Start(n, threads), steps)
    ensures SameSendSides(After(Start(n, threads), steps)) && Attended(After(Start(n, threads), steps))
    decreases |steps|
  {
    if steps != [] {
      var init, last := steps[..|steps| - 1], steps[|steps| - 1];
      HistoryInv(n, threads, init);
      StepSendSides(After(Start(n, threads), init), last);
      StepAttended(After(Start(n, threads), init), last);
    }
  }

  // ----- which histories there are -----

  lemma MayFollow(v: Server, steps: seq<Step>, step: Step)
    requires LegalHistory(v, steps)
    ensures LegalHistory(v, steps + [step]) <==> Enabled(After(v, steps), step)
  {
    assert (steps + [step])[..|steps + [step]| - 1] == steps;
  }

  /** The events of the pool in a history. */
  function PoolEvents(n: nat, threads: nat, steps: seq<Step>): seq<Event>
    requires LegalHistory(Start(n, threads), steps)
  {
    HistoryIsTrace(Start(n, threads), steps);
    C.Events(C.Start(n, threads), PoolSteps(Start(n, threads), steps))
  }

  /**
   * In every history, on every thread outside its calls, the send side of every session that Init pushed
   * or a Get has popped can do whatever its life allows, held by that thread, held by another, or pooled;
   * only a socket is attached, and OnAccepted run, by the thread that holds the session.
   */
  lemma UsedAnywhere(n: nat, threads: nat, steps: seq<Step>, t: ThreadId, x: SessionId, b: L.Action)
    requires LegalHistory(Start(n, threads), steps)
    requires x < n || EverGot(PoolEvents(n, threads, steps), x)
    requires t < |After(Start(n, threads), steps).pool.pcs| && After(Start(n, threads), steps).pool.pcs[t].Outside?
    ensures |After(Start(n, threads), steps).pool.held| == |After(Start(n, threads), steps).pool.pcs|
    ensures LegalHistory(Start(n, threads), steps + [Use(t, x, b)])
       <==> && L.LegalRun(L.NEW_LIFE, LifeSteps(steps, x) + [b])
            && (b.Attach? || b.GoLive? ==> x in After(Start(n, threads), steps).pool.held[t])
  {
    var v := Start(n, threads);
    HistoryIsTrace(v, steps);
    HistoryIsLife(v, steps, x);
    C.SameThreads(v.pool, PoolSteps(v, steps));
    C.KnownExactly(n, threads, PoolSteps(v, steps), x);
    L.MayFollow(LifeSteps(steps, x), b);
    UsedWhenKnown(v, steps, After(v, steps), t, x, b);
  }

  lemma UsedWhenKnown(v: Server, steps: seq<Step>, w: Server, t: ThreadId, x: SessionId, b: L.Action)
    requires LegalHistory(v, steps) && After(v, steps) == w && C.Known(w.pool, x)
    requires t < |w.pool.pcs| == |w.pool.held| && w.pool.pcs[t].Outside?
    ensures LegalHistory(v, steps + [Use(t, x, b)])
       <==> L.Enabled(LifeOf(w, x), b) && (b.Attach? || b.GoLive? ==> x in w.pool.held[t])
  {
    MayFollow(v, steps, Use(t, x, b));
  }

  /**
   * The pool goes on as it would alone, but that a session is released only after Disconnect, and that
   * its holder changes the send side only as its life allows.
   */
  lemma PooledAsAlone(n: nat, threads: nat, steps: seq<Step>, a: C.Action)
    requires LegalHistory(Start(n, threads), steps) && !a.Touch?
    ensures C.LegalTrace(C.Start(n, threads), PoolSteps(Start(n, threads), steps))
    ensures LegalHistory(Start(n, threads), steps + [InPool(a)])
       <==> && C.LegalTrace(C.Start(n, threads), PoolSteps(Start(n, threads), steps) + [a])
            && (a.CallPut? ==> LifeOf(After(Start(n, threads), steps), a.x).phase.Closed?)
            && (a.Write? ==> KeepsSendSide(After(Start(n, threads), steps).pool.bodies, a.x, a.b))
  {
    var v := Start(n, threads);
    HistoryIsTrace(v, steps);
    MayFollow(v, steps, InPool(a));
    C.TraceSnoc(C.Start(n, threads), PoolSteps(v, steps), a);
  }

  // ----- every life happens -----

  function InPools(acts: seq<C.Action>): seq<Step> {
    seq(|acts|, i requires 0 <= i < |acts| => InPool(acts[i]))
  }

  /** Calls of Get, and at the start the release of a session that its holder has disconnected. */
  predicate OneCall(w: Server, acts: seq<C.Action>) {
    acts == [] ||
    (var init, last := acts[..|acts| - 1], acts[|acts| - 1];
     OneCall(w, init) && (last.CallGet? || last.Micro? || (init == [] && Enabled(w, InPool(last)))))
  }

  lemma OneCallGoesOn(w: Server, acts: seq<C.Action>, t: ThreadId)
    requires OneCall(w, acts)
    ensures OneCall(w, acts + [C.Micro(t)])
  {
    assert (acts + [C.Micro(t)])[..|acts + [C.Micro(t)]| - 1] == acts;
  }

  lemma GetIsOneCall(w: Server, t: ThreadId)
    ensures OneCall(w, U.ThenGet([], t))
  {
    var begun := [] + [C.CallGet(t)];
    assert begun[..|begun| - 1] == [] && OneCall(w, []);
    OneCallGoesOn(w, begun, t);
    OneCallGoesOn(w, begun + [C.Micro(t)], t);
    OneCallGoesOn(w, begun + [C.Micro(t)] + [C.Micro(t)], t);
    OneCallGoesOn(w, begun + [C.Micro(t)] + [C.Micro(t)] + [C.Micro(t)], t);
    OneCallGoesOn(w, begun + [C.Micro(t)] + [C.Micro(t)] + [C.Micro(t)] + [C.Micro(t)], t);
  }

  lemma PutIsOneCall(w: Server, t: ThreadId, x: SessionId)
    requires Enabled(w, InPool(C.CallPut(t, x)))
    ensures OneCall(w, U.ThenPut([], t, x))
  {
    var begun := [] + [C.CallPut(t, x)];
    assert begun[..|begun| - 1] == [] && OneCall(w, []);
    OneCallGoesOn(w, begun, t);
    OneCallGoesOn(w, begun + [C.Micro(t)], t);
    OneCallGoesOn(w, begun + [C.Micro(t)] + [C.Micro(t)], t);
    OneCallGoesOn(w, begun + [C.Micro(t)] + [C.Micro(t)] + [C.Micro(t)], t);
    OneCallGoesOn(w, begun + [C.Micro(t)] + [C.Micro(t)] + [C.Micro(t)] + [C.Micro(t)], t);
    OneCallGoesOn(w, begun + [C.Micro(t)] + [C.Micro(t)] + [C.Micro(t)] + [C.Micro(t)] + [C.Micro(t)], t);
  }

  /** A whole call happens in a history as it does in the pool alone. */
  lemma {:induction false} CallHappens(v: Server, steps: seq<Step>, w: Server, acts: seq<C.Action>, x: SessionId)
    requires LegalHistory(v, steps) && After(v, steps) == w
    requires U.PossibleTrace(w.pool, acts) && OneCall(w, acts)
    ensures LegalHistory(v, steps + InPools(acts))
    ensures After(v, steps + InPools(acts)) == Server(U.Reached(w.pool, acts), w.lives)
    ensures LifeSteps(steps + InPools(acts), x) == LifeSteps(steps, x)
  {
    if acts == [] {
      assert steps + InPools(acts) == steps;
    } else {
      var init, last := acts[..|acts| - 1], acts[|acts| - 1];
      assert init + [last] == acts;
      var m := Server(U.Reached(w.pool, init), w.lives);
      InPoolsSnoc(steps, init, last);
      CallHappens(v, steps, w, init, x);
      CallGoesOn(w, acts);
      PoolStepHappens(v, steps + InPools(init), m, last, x);
    }
  }

  lemma InPoolsSnoc(steps: seq<Step>, acts: seq<C.Action>, a: C.Action)
    ensures steps + InPools(acts + [a]) == (steps + InPools(acts)) + [InPool(a)]
  {
  }

  lemma CallGoesOn(w: Server, acts: seq<C.Action>)
    requires acts != [] && U.PossibleTrace(w.pool, acts) && OneCall(w, acts)
    ensures Enabled(Server(U.Reached(w.pool, acts[..|acts| - 1]), w.lives), InPool(acts[|acts| - 1]))
  {
  }

  lemma PoolStepHappens(v: Server, steps: seq<Step>, w: Server, a: C.Action, x: SessionId)
    requires LegalHistory(v, steps) && After(v, steps) == w
    requires Enabled(w, InPool(a))
    ensures LegalHistory(v, steps + [InPool(a)])
    ensures After(v, steps + [InPool(a)]) == Server(C.Next(w.pool, a), w.lives)
    ensures LifeSteps(steps + [InPool(a)], x) == LifeSteps(steps, x)
  {
    AfterSnoc(v, steps, InPool(a));
    assert (steps + [InPool(a)])[..|steps + [InPool(a)]| - 1] == steps;
    assert LifeSteps(steps, x) + [] == LifeSteps(steps, x);
  }

  lemma UseHappens(v: Server, steps: seq<Step>, w: Server, u: ThreadId, x: SessionId, b: L.Action)
    requires LegalHistory(v, steps) && After(v, steps) == w && Enabled(w, Use(u, x, b))
    ensures LegalHistory(v, steps + [Use(u, x, b)])
    ensures After(v, steps + [Use(u, x, b)]) == Next(w, Use(u, x, b))
    ensures LifeSteps(steps + [Use(u, x, b)], x) == LifeSteps(steps, x) + [b]
  {
    AfterSnoc(v, steps, Use(u, x, b));
    assert (steps + [Use(u, x, b)])[..|steps + [Use(u, x, b)]| - 1] == steps;
  }

  /** A moment when the lock is free, a session is pooled, and threads `t` and `u` are outside their calls. */
  predicate Calm(s: C.State, t: ThreadId, u: ThreadId) {
    && U.Quiet(s, t) && U.Quiet(s, u) && s.stack != [] && NextUp(s) !in s.held[t]
  }

  /** The session on top. */
  function NextUp(s: C.State): SessionId
    requires s.stack != []
  {
    s.stack[|s.stack| - 1]
  }

  /** As in `s0`, but if `out` thread `t` holds the session that was on top. */
  predicate Same(s: C.State, s0: C.State, t: ThreadId, out: bool)
    requires s0.stack != [] && t < |s0.held|
  {
    && s.lock == s0.lock && s.created == s0.created && s.pcs == s0.pcs && NextUp(s0) in s.bodies
    && s.stack == (if out then s0.stack[..|s0.stack| - 1] else s0.stack)
    && s.held == (if out then s0.held[t := s0.held[t] + {NextUp(s0)}] else s0.held)
  }

  lemma TakenFrom(s: C.State, s0: C.State, t: ThreadId, u: ThreadId)
    requires Calm(s0, t, u) && Same(s, s0, t, false)
    ensures U.Quiet(s, t) && s.stack != [] && Same(U.Get(s, t), s0, t, true)
  {
  }

  lemma PutBackIn(s: C.State, s0: C.State, t: ThreadId, u: ThreadId)
    requires Calm(s0, t, u) && Same(s, s0, t, true)
    ensures U.Quiet(s, t) && C.Enabled(s, C.CallPut(t, NextUp(s0))) && Same(U.Put(s, t, NextUp(s0)), s0, t, false)
  {
    var x := NextUp(s0);
    assert s0.stack[..|s0.stack| - 1] + [x] == s0.stack;
    assert s0.held[t] + {x} - {x} == s0.held[t];
    assert s.held[t := s0.held[t]] == s0.held;
  }

  lemma TakesIt(v: Server, steps: seq<Step>, w: Server, t: ThreadId, u: ThreadId)
    returns (more: seq<Step>, m: Server)
    requires Calm(v.pool, t, u) && LegalHistory(v, steps) && After(v, steps) == w && Same(w.pool, v.pool, t, false)
    ensures LegalHistory(v, more) && After(v, more) == m
    ensures LifeSteps(more, NextUp(v.pool)) == LifeSteps(steps, NextUp(v.pool))
    ensures m.lives == w.lives && Same(m.pool, v.pool, t, true)
  {
    TakenFrom(w.pool, v.pool, t, u);
    U.GetRun(w.pool, [], t);
    GetIsOneCall(w, t);
    CallHappens(v, steps, w, U.ThenGet([], t), NextUp(v.pool));
    more, m := steps + InPools(U.ThenGet([], t)), Server(U.Get(w.pool, t), w.lives);
  }

  lemma PutsItBack(v: Server, steps: seq<Step>, w: Server, t: ThreadId, u: ThreadId)
    returns (more: seq<Step>, m: Server)
    requires Calm(v.pool, t, u) && LegalHistory(v, steps) && After(v, steps) == w && Same(w.pool, v.pool, t, true)
    requires LifeOf(w, NextUp(v.pool)).phase.Closed?
    ensures LegalHistory(v, more) && After(v, more) == m
    ensures LifeSteps(more, NextUp(v.pool)) == LifeSteps(steps, NextUp(v.pool))
    ensures m.lives == w.lives && Same(m.pool, v.pool, t, false)
  {
    var x := NextUp(v.pool);
    PutBackIn(w.pool, v.pool, t, u);
    U.PutRun(w.pool, [], t, x);
    PutIsOneCall(w, t, x);
    CallHappens(v, steps, w, U.ThenPut([], t, x), x);
    more, m := steps + InPools(U.ThenPut([], t, x)), Server(U.Put(w.pool, t, x), w.lives);
  }

  lemma UsedSame(v: Server, s0: C.State, t: ThreadId, u: ThreadId, on: ThreadId, b: L.Action, out: bool)
    requires Calm(s0, t, u) && (on == t || on == u) && Same(v.pool, s0, t, out) && L.Enabled(LifeOf(v, NextUp(s0)), b)
    requires b.Attach? || b.GoLive? ==> on == t && out
    ensures Enabled(v, Use(on, NextUp(s0), b))
    ensures LifeOf(Next(v, Use(on, NextUp(s0), b)), NextUp(s0)) == L.Next(LifeOf(v, NextUp(s0)), b)
    ensures Same(Next(v, Use(on, NextUp(s0), b)).pool, s0, t, out)
  {
  }

  /** A step of the life that leaves the session where it is. */
  lemma UsesIt(v: Server, steps: seq<Step>, w: Server, t: ThreadId, u: ThreadId, on: ThreadId, b: L.Action, out: bool)
    returns (more: seq<Step>, m: Server)
    requires Calm(v.pool, t, u) && (on == t || on == u) && LegalHistory(v, steps) && After(v, steps) == w
    requires Same(w.pool, v.pool, t, out) && L.Enabled(LifeOf(w, NextUp(v.pool)), b)
    requires b.Attach? || b.GoLive? ==> on == t && out
    ensures LegalHistory(v, more) && After(v, more) == m
    ensures LifeSteps(more, NextUp(v.pool)) == LifeSteps(steps, NextUp(v.pool)) + [b]
    ensures LifeOf(m, NextUp(v.pool)) == L.Next(LifeOf(w, NextUp(v.pool)), b) && Same(m.pool, v.pool, t, out)
  {
    var x := NextUp(v.pool);
    UsedSame(w, v.pool, t, u, on, b, out);
    UseHappens(v, steps, w, on, x, b);
    more, m := steps + [Use(on, x, b)], Next(w, Use(on, x, b));
  }

  /** Any step, with the Get before a socket is attached and the Release after the session is disconnected. */
  lemma StepHappens(v: Server, steps: seq<Step>, w: Server, t: ThreadId, u: ThreadId, b: L.Action)
    returns (more: seq<Step>, m: Server)
    requires Calm(v.pool, t, u) && LegalHistory(v, steps) && After(v, steps) == w
    requires Same(w.pool, v.pool, t, !LifeOf(w, NextUp(v.pool)).phase.Closed?)
    requires L.Enabled(LifeOf(w, NextUp(v.pool)), b)
    ensures LegalHistory(v, more) && After(v, more) == m
    ensures LifeSteps(more, NextUp(v.pool)) == LifeSteps(steps, NextUp(v.pool)) + [b]
    ensures Same(m.pool, v.pool, t, !LifeOf(m, NextUp(v.pool)).phase.Closed?)
  {
    var l := LifeOf(w, NextUp(v.pool));
    if b.Attach? {
      more, m := TakesIt(v, steps, w, t, u);
      more, m := UsesIt(v, more, m, t, u, t, b, true);
    } else if l.phase.Closed? {
      more, m := UsesIt(v, steps, w, t, u, u, b, false);
    } else {
      more, m := UsesIt(v, steps, w, t, u, if b.GoLive? then t else u, b, true);
      if L.Next(l, b).phase.Closed? {
        more, m := PutsItBack(v, more, m, t, u);
      }
    }
  }

  lemma FollowsInLife(v: Server, steps: seq<Step>, m: Server, x: SessionId, acts: seq<L.Action>)
    requires LegalHistory(v, steps) && After(v, steps) == m
    requires acts != [] && L.LegalRun(LifeOf(v, x), acts) && LifeSteps(steps, x) == acts[..|acts| - 1]
    ensures L.Enabled(LifeOf(m, x), acts[|acts| - 1])
  {
    HistoryIsLife(v, steps, x);
  }

  /**
   * Every life of a session happens on the server, from any moment when the session is on top of the
   * stack: thread `t` gets it when a connection is accepted and releases it as soon as it is disconnected,
   * and everything else happens on thread `u`, whether `t` holds the session or it is back on the stack.
   */
  lemma {:induction false} EveryLifeHappens(v: Server, t: ThreadId, u: ThreadId, acts: seq<L.Action>)
    returns (steps: seq<Step>, m: Server)
    requires Calm(v.pool, t, u) && NextUp(v.pool) in v.pool.bodies
    requires LifeOf(v, NextUp(v.pool)).phase.Closed? && L.LegalRun(LifeOf(v, NextUp(v.pool)), acts)
    ensures LegalHistory(v, steps) && After(v, steps) == m && LifeSteps(steps, NextUp(v.pool)) == acts
    ensures Same(m.pool, v.pool, t, !LifeOf(m, NextUp(v.pool)).phase.Closed?)
  {
    if acts == [] {
      steps, m := [], v;
    } else {
      var init, last := acts[..|acts| - 1], acts[|acts| - 1];
      assert init + [last] == acts;
      var before, w := EveryLifeHappens(v, t, u, init);
      FollowsInLife(v, before, w, NextUp(v.pool), acts);
      steps, m := StepHappens(v, before, w, t, u, last);
    }
  }

  /** In particular every life of a new session happens, from the start, on a server of `n` sessions. */
  lemma EveryLifeFromStart(n: nat, threads: nat, t: ThreadId, u: ThreadId, acts: seq<L.Action>)
    returns (steps: seq<Step>)
    requires n > 0 && t < threads && u < threads && L.LegalRun(L.NEW_LIFE, acts)
    ensures LegalHistory(Start(n, threads), steps) && LifeSteps(steps, n - 1) == acts
    ensures var s := After(Start(n, threads), steps).pool;
            var closed := L.Run(L.NEW_LIFE, acts).phase.Closed?;
            && s.lock.Free? && s.pcs == C.Start(n, threads).pcs && s.stack == (if closed then UpTo(n) else UpTo(n - 1))
            && |s.held| == threads && (n - 1 in s.held[t] <==> !closed)
  {
    var v := Start(n, threads);
    assert UpTo(n)[..n - 1] == UpTo(n - 1);
    var m;
    steps, m := EveryLifeHappens(v, t, u, acts);
    HistoryIsLife(v, steps, n - 1);
  }

  // ----- one connection at a time -----

  /**
   * In every history, a session with a socket is with exactly one thread, and with that one outside its
   * calls: it is not pooled, and no Get returns it.
   */
  lemma OneConnection(n: nat, threads: nat, steps: seq<Step>, x: SessionId) returns (t: ThreadId)
    requires LegalHistory(Start(n, threads), steps)
    requires !LifeOf(After(Start(n, threads), steps), x).phase.Closed?
    ensures var s := After(Start(n, threads), steps).pool;
            && t < |s.pcs| == |s.held| && x in s.held[t] && x !in s.stack && x !in C.InCall(s.pcs[t])
            && forall u: ThreadId :: u < |s.pcs| && x in C.Has(s, u) ==> u == t
  {
    var v := After(Start(n, threads), steps);
    HistoryInv(n, threads, steps);
    HistoryIsTrace(Start(n, threads), steps);
    C.ExclusiveOwnership(n, threads, PoolSteps(Start(n, threads), steps));
    t :| t < |v.pool.held| && x in v.pool.held[t];
    assert x in C.Has(v.pool, t);
    forall u: ThreadId | u < |v.pool.pcs| && x in C.Has(v.pool, u)
      ensures u == t
    {
      C.HasApart(v.pool, t, u, x);
    }
  }

  /**
   * In every history, a session that a Get returns has no socket, a cleared receive side, and the send
   * side of its life so far; it is as new exactly when that is idle.
   */
  lemma HandedOut(n: nat, threads: nat, steps: seq<Step>, t: ThreadId)
    requires LegalHistory(Start(n, threads), steps)
    requires t < |After(Start(n, threads), steps).pool.pcs| && After(Start(n, threads), steps).pool.pcs[t].GetExit?
    ensures var v := After(Start(n, threads), steps);
            var x := v.pool.pcs[t].x;
            && x in v.pool.bodies
            && LifeOf(v, x).phase.Closed?
            && v.pool.bodies[x] == FRESH.(out := LifeOf(v, x).sender.out)
            && (v.pool.bodies[x] == FRESH <==> LifeOf(v, x).sender.out == S.IDLE_OUTBOX)
  {
    var v := After(Start(n, threads), steps);
    var x := v.pool.pcs[t].x;
    HistoryInv(n, threads, steps);
    HistoryIsTrace(Start(n, threads), steps);
    C.ConcurrentCleanHandout(n, threads, PoolSteps(Start(n, threads), steps), t);
    NoSocketInHand(n, threads, steps, t);
    assert v.pool.bodies[x].out == LifeOf(v, x).sender.out;
  }

  lemma NoSocketInHand(n: nat, threads: nat, steps: seq<Step>, t: ThreadId)
    requires LegalHistory(Start(n, threads), steps)
    requires t < |After(Start(n, threads), steps).pool.pcs| && After(Start(n, threads), steps).pool.pcs[t].GetExit?
    ensures LifeOf(After(Start(n, threads), steps), After(Start(n, threads), steps).pool.pcs[t].x).phase.Closed?
  {
    HistoryInv(n, threads, steps);
    HistoryIsTrace(Start(n, threads), steps);
    C.ExclusiveOwnership(n, threads, PoolSteps(Start(n, threads), steps));
    NotInHand(After(Start(n, threads), steps), t);
  }

  lemma NotInHand(v: Server, t: ThreadId)
    requires Attended(v) && C.Exclusive(v.pool) && t < |v.pool.pcs| && v.pool.pcs[t].GetExit?
    ensures LifeOf(v, v.pool.pcs[t].x).phase.Closed?
  {
    var x := v.pool.pcs[t].x;
    assert x in C.InCall(v.pool.pcs[t]) && x in C.Has(v.pool, t);
    if !LifeOf(v, x).phase.Closed? {
      var u: ThreadId :| u < |v.pool.held| && x in v.pool.held[u];
      C.HasApart(v.pool, t, u, x);
    }
  }

  // ----- what each connection is served -----

  /** Whatever happens on the server, the connection of `x` serves until the next one. */
  ghost predicate ServesInAll(v: Server, x: SessionId) {
    forall steps :: LegalHistory(v, steps) && L.Attach !in LifeSteps(steps, x) ==>
      R.Serves(LifeOf(After(v, steps), x))
  }

  /** Whatever happens on the server, the connection of `x` carries only its own bytes. */
  ghost predicate OwnBytesInAll(v: Server, x: SessionId) {
    forall steps :: LegalHistory(v, steps) && L.Attach !in LifeSteps(steps, x) ==>
      R.OwnBytes(LifeOf(After(v, steps), x))
  }

  function Uses(t: ThreadId, x: SessionId, acts: seq<L.Action>): seq<Step> {
    if acts == [] then [] else Uses(t, x, acts[..|acts| - 1]) + [Use(t, x, acts[|acts| - 1])]
  }

  predicate CanUse(v: Server, t: ThreadId, x: SessionId) {
    C.Enabled(v.pool, C.Touch(t, x, S.IDLE_OUTBOX)) && x in v.pool.held[t]
  }

  /** One thread that holds the session can do to it whatever its life allows. */
  lemma {:induction false} UsesRun(v: Server, t: ThreadId, x: SessionId, acts: seq<L.Action>)
    requires CanUse(v, t, x) && L.LegalRun(LifeOf(v, x), acts)
    ensures LegalHistory(v, Uses(t, x, acts))
    ensures CanUse(After(v, Uses(t, x, acts)), t, x)
    ensures LifeOf(After(v, Uses(t, x, acts)), x) == L.Run(LifeOf(v, x), acts)
  {
    if acts != [] {
      var init, last := acts[..|acts| - 1], acts[|acts| - 1];
      UsesRun(v, t, x, init);
      OneUse(After(v, Uses(t, x, init)), t, x, last);
      AfterSnoc(v, Uses(t, x, init), Use(t, x, last));
    }
  }

  lemma {:induction false} UsesSteps(t: ThreadId, x: SessionId, acts: seq<L.Action>)
    ensures LifeSteps(Uses(t, x, acts), x) == acts
  {
    if acts != [] {
      var init, last := acts[..|acts| - 1], acts[|acts| - 1];
      UsesSteps(t, x, init);
      assert (Uses(t, x, init) + [Use(t, x, last)])[..|Uses(t, x, init)|] == Uses(t, x, init);
    }
  }

  lemma OneUse(v: Server, t: ThreadId, x: SessionId, b: L.Action)
    requires CanUse(v, t, x) && L.Enabled(LifeOf(v, x), b)
    ensures Enabled(v, Use(t, x, b))
    ensures CanUse(Next(v, Use(t, x, b)), t, x) && LifeOf(Next(v, Use(t, x, b)), x) == L.Next(LifeOf(v, x), b)
  {
    assert C.Holder(Next(v, Use(t, x, b)).pool) == C.Holder(v.pool);
  }

  lemma ServesLifts(v: Server, t: ThreadId, x: SessionId)
    requires CanUse(v, t, x)
    ensures ServesInAll(v, x) <==> R.ServesAlways(LifeOf(v, x))
  {
    if R.ServesAlways(LifeOf(v, x)) {
      forall steps | LegalHistory(v, steps) && L.Attach !in LifeSteps(steps, x)
        ensures R.Serves(LifeOf(After(v, steps), x))
      {
        HistoryIsLife(v, steps, x);
      }
    } else {
      var acts :| L.LegalRun(LifeOf(v, x), acts) && L.Attach !in acts && !R.Serves(L.Run(LifeOf(v, x), acts));
      UsesRun(v, t, x, acts);
      UsesSteps(t, x, acts);
      assert !R.Serves(LifeOf(After(v, Uses(t, x, acts)), x));
    }
  }

  lemma OwnBytesLifts(v: Server, t: ThreadId, x: SessionId)
    requires CanUse(v, t, x)
    ensures OwnBytesInAll(v, x) <==> R.OwnBytesAlways(LifeOf(v, x))
  {
    if R.OwnBytesAlways(LifeOf(v, x)) {
      forall steps | LegalHistory(v, steps) && L.Attach !in LifeSteps(steps, x)
        ensures R.OwnBytes(LifeOf(After(v, steps), x))
      {
        HistoryIsLife(v, steps, x);
      }
    } else {
      var acts :| L.LegalRun(LifeOf(v, x), acts) && L.Attach !in acts && !R.OwnBytes(L.Run(LifeOf(v, x), acts));
      UsesRun(v, t, x, acts);
      UsesSteps(t, x, acts);
      assert !R.OwnBytes(LifeOf(After(v, Uses(t, x, acts)), x));
    }
  }

  /**
   * Every connection of every session, in every interleaving of the whole server, at the moment when
   * OnAccepted runs: exactly when it serves whatever happens from then on, and exactly when it carries
   * only its own bytes whatever happens from then on.
   */
  lemma AcceptedExactly(n: nat, threads: nat, steps: seq<Step>, t: ThreadId, x: SessionId)
    requires LegalHistory(Start(n, threads), steps)
    requires Enabled(After(Start(n, threads), steps), Use(t, x, L.GoLive))
    ensures var v := Next(After(Start(n, threads), steps), Use(t, x, L.GoLive));
            var l := LifeOf(v, x);
            && (ServesInAll(v, x) <==> l.sender.wire == [] && (l.sender.out == S.IDLE_OUTBOX || R.CaughtUp(l)))
            && (OwnBytesInAll(v, x) <==> !R.Leaks(l))
  {
    var u := After(Start(n, threads), steps);
    var v := Next(u, Use(t, x, L.GoLive));
    HistoryIsLife(Start(n, threads), steps, x);
    R.ServesExactly(LifeSteps(steps, x));
    R.OwnBytesExactly(LifeSteps(steps, x));
    OneUse(u, t, x, L.GoLive);
    ServesLifts(v, t, x);
    OwnBytesLifts(v, t, x);
  }

  // ----- sessions that never send again -----

  /** In every history, a session has stopped sending for good exactly when its send side has called Disconnect. */
  lemma StopsExactly(n: nat, threads: nat, steps: seq<Step>, x: SessionId)
    requires LegalHistory(Start(n, threads), steps)
    ensures L.LegalRun(L.NEW_LIFE, LifeSteps(steps, x))
    ensures L.Stale(LifeOf(After(Start(n, threads), steps), x)) <==> L.GaveUp(LifeSteps(steps, x))
  {
    HistoryIsLife(Start(n, threads), steps, x);
    L.StopsExactly(LifeSteps(steps, x));
  }

  /** From then on it is released and handed out again and again, and no connection on it carries a byte. */
  lemma StaleForGood(v: Server, steps: seq<Step>, x: SessionId)
    requires L.Stale(LifeOf(v, x)) && LegalHistory(v, steps)
    ensures L.Stale(LifeOf(After(v, steps), x))
    ensures L.Attach in LifeSteps(steps, x) ==> LifeOf(After(v, steps), x).sender.wire == []
  {
    HistoryIsLife(v, steps, x);
    L.StaleForever(LifeOf(v, x), LifeSteps(steps, x));
  }
}
