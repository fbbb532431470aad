/**
 * The session pool under concurrency: any number of threads interleave the micro-steps of
 * GetEmptySession (lock, test for empty, construct and push, read the top, pop, unlock) and of
 * Release (lock, reset field by field, push, unlock). Sessions that are out belong to threads, which
 * write to them and pass them on to each other. The result is a refinement of AtomicPool.
 */
module ConcurrentPool {
  import opened SessionBody
  import opened AtomicPool
  import Sending

  /** Where a thread is. `grown` says that the session on top was constructed by this very call. */
  datatype Pc =
    | Outside
    | GetWait
    | GetTest
    | GetGrow
    | GetTop(grown: bool)
    | GetPop(x: SessionId, grown: bool)
    | GetExit(x: SessionId)
    | PutWait(x: SessionId)
    | PutInit(x: SessionId)
    | PutWrite(x: SessionId)
    | PutSocket(x: SessionId)
    | PutPush(x: SessionId)
    | PutExit(x: SessionId)
    | Broken  // top or pop was called on an empty stack

  datatype Lock = Free | By(t: ThreadId)

  datatype State = State(
    lock: Lock,
    stack: seq<SessionId>,
    created: nat,
    bodies: map<SessionId, Body>,
    pcs: seq<Pc>,                  // one entry a thread
    held: seq<set<SessionId>>)     // what each thread holds outside its own calls

  datatype Action =
    | CallGet(t: ThreadId)
    | CallPut(t: ThreadId, x: SessionId)
    | Micro(t: ThreadId)
    | Write(t: ThreadId, x: SessionId, b: Body)
    | Hand(t: ThreadId, u: ThreadId, x: SessionId)
    | Touch(t: ThreadId, x: SessionId, out: Sending.Outbox)

  predicate Waiting(pc: Pc) {
    pc.GetWait? || pc.PutWait?
  }

  predicate InSection(pc: Pc) {
    !pc.Outside? && !Waiting(pc)
  }

  /** A session of which some thread may have a pointer: any but one that a Get has pushed and not yet popped. */
  predicate Known(s: State, x: SessionId) {
    x in s.bodies && !(Grown(Holder(s)) && x + 1 == s.created)
  }

  /** What the code lets threads do: Release takes any session, whoever holds it. */
  predicate Possible(s: State, a: Action) {
    && |s.held| == |s.pcs|
    && a.t < |s.pcs|
    && match a
       case CallGet(t) => s.pcs[t].Outside?
       case CallPut(t, x) => s.pcs[t].Outside?
       case Micro(t) => !s.pcs[t].Outside? && !s.pcs[t].Broken? && (Waiting(s.pcs[t]) ==> s.lock.Free?)
       case Write(t, x, b) => s.pcs[t].Outside? && x in s.held[t]
       case Hand(t, u, x) => s.pcs[t].Outside? && x in s.held[t] && u < |s.pcs|
       case Touch(t, x, out) => s.pcs[t].Outside? && Known(s, x)
  }

  /** The same with the rule that threads release only what they hold. */
  predicate Enabled(s: State, a: Action) {
    Possible(s, a) && (a.CallPut? ==> a.x in s.held[a.t])
  }

  function Next(s: State, a: Action): State
    requires Possible(s, a)
  {
    match a
    case CallGet(t) => s.(pcs := s.pcs[t := GetWait])
    case CallPut(t, x) => s.(pcs := s.pcs[t := PutWait(x)], held := s.held[t := s.held[t] - {x}])
    case Micro(t) => MicroNext(s, t)
    case Write(t, x, b) => s.(bodies := s.bodies[x := b])
    case Hand(t, u, x) =>
      var gone := s.held[t := s.held[t] - {x}];
      s.(held := gone[u := gone[u] + {x}])
    case Touch(t, x, out) => s.(bodies := s.bodies[x := s.bodies[x].(out := out)])
  }

  function MicroNext(s: State, t: ThreadId): State
    requires t < |s.pcs| == |s.held|
  {
    match s.pcs[t]
    case GetWait => s.(lock := By(t), pcs := s.pcs[t := GetTest])
    case GetTest => s.(pcs := s.pcs[t := if s.stack == [] then GetGrow else GetTop(false)])
    case GetGrow =>
      s.(stack := s.stack + [s.created], created := s.created + 1,
         bodies := s.bodies[s.created := FRESH], pcs := s.pcs[t := GetTop(true)])
    case GetTop(grown) =>
      if s.stack == [] then s.(pcs := s.pcs[t := Broken])
      else s.(pcs := s.pcs[t := GetPop(s.stack[|s.stack| - 1], grown)])
    case GetPop(x, grown) =>
      if s.stack == [] then s.(pcs := s.pcs[t := Broken])
      else s.(stack := s.stack[..|s.stack| - 1], pcs := s.pcs[t := GetExit(x)])
    case GetExit(x) =>
      s.(lock := Free, pcs := s.pcs[t := Outside], held := s.held[t := s.held[t] + {x}])
    case PutWait(x) => s.(lock := By(t), pcs := s.pcs[t := PutInit(x)])
    case PutInit(x) =>
      s.(bodies := Store(s.bodies, x, ClearRead), pcs := s.pcs[t := PutWrite(x)])
    case PutWrite(x) =>
      s.(bodies := Store(s.bodies, x, ClearWrite), pcs := s.pcs[t := PutSocket(x)])
    case PutSocket(x) =>
      s.(bodies := Store(s.bodies, x, ClearSocket), pcs := s.pcs[t := PutPush(x)])
    case PutPush(x) => s.(stack := s.stack + [x], pcs := s.pcs[t := PutExit(x)])
    case PutExit(x) => s.(lock := Free, pcs := s.pcs[t := Outside])
    case Outside => s
    case Broken => s
  }

  /** One store to a field of session `x`. */
  function Store(bodies: map<SessionId, Body>, x: SessionId, f: Body -> Body): map<SessionId, Body> {
    if x in bodies then bodies[x := f(bodies[x])] else bodies
  }

  /** `threads` threads about to start on a pool of `n` sessions. */
  function Start(n: nat, threads: nat): State {
    State(Free, Filled(n).stack, n, Filled(n).bodies, seq(threads, _ => Outside), seq(threads, _ => {}))
  }

  predicate LegalTrace(s: State, acts: seq<Action>)
    decreases acts, 0
  {
    acts == [] ||
    (LegalTrace(s, acts[..|acts| - 1]) && Enabled(Trace(s, acts[..|acts| - 1]), acts[|acts| - 1]))
  }

  /** The state that an interleaving leads to. */
  function Trace(s: State, acts: seq<Action>): State
    requires LegalTrace(s, acts)
    decreases acts, 1
  {
    if acts == [] then s else Next(Trace(s, acts[..|acts| - 1]), acts[|acts| - 1])
  }

  // ----- the invariant of the interleaving -----

  /** What is true of the stack, or of the session being reset, at a program point inside the section. */
  predicate PcFits(s: State, pc: Pc) {
    match pc
    case GetGrow => s.stack == []
    case GetTop(grown) => s.stack != [] && (grown ==> JustGrown(s))
    case GetPop(x, grown) => s.stack != [] && s.stack[|s.stack| - 1] == x && (grown ==> JustGrown(s))
    case PutWrite(x) => x in s.bodies ==> s.bodies[x].read == 0
    case PutSocket(x) => x in s.bodies ==> s.bodies[x].read == 0 && s.bodies[x].write == 0
    case PutPush(x) => x in s.bodies ==> Clean(s.bodies[x])
    case Broken => false
    case _ => true
  }

  predicate JustGrown(s: State) {
    && s.created > 0
    && s.stack == [s.created - 1]
    && s.created - 1 in s.bodies && s.bodies[s.created - 1] == FRESH
  }

  /** Mutual exclusion, and the stack as the thread inside the section last saw it. */
  ghost predicate LockInv(s: State) {
    && |s.held| == |s.pcs|
    && (s.lock.By? ==> s.lock.t < |s.pcs|)
    && (forall t: ThreadId :: t < |s.pcs| ==> (InSection(s.pcs[t]) <==> s.lock == By(t)))
    && (forall t: ThreadId :: t < |s.pcs| ==> PcFits(s, s.pcs[t]))
  }

  /** The program point of the thread inside the section, if there is one. */
  function Holder(s: State): Pc {
    if s.lock.By? && s.lock.t < |s.pcs| then s.pcs[s.lock.t] else Outside
  }

  /** The session a call has in hand: asked to be released and not yet reset, or popped and not yet returned. */
  function InHand(pc: Pc): set<SessionId> {
    match pc
    case GetExit(x) => {x}
    case PutWait(x) => {x}
    case PutInit(x) => {x}
    case _ => {}
  }

  /** All that thread `t` holds. */
  function Owned(s: State, t: ThreadId): set<SessionId>
    requires t < |s.pcs| == |s.held|
  {
    s.held[t] + InHand(s.pcs[t])
  }

  predicate Grown(pc: Pc) {
    (pc.GetTop? || pc.GetPop?) && pc.grown
  }

  /** Between the first store of a reset and the push. */
  predicate Releasing(pc: Pc) {
    pc.PutWrite? || pc.PutSocket? || pc.PutPush?
  }

  /**
   * `p` is the atomic pool behind `s`. A session that a Get has pushed and not yet popped does not
   * exist there yet; a session that a Release has begun to reset and not yet pushed is there already,
   * with the reset complete.
   */
  ghost predicate Refines(s: State, p: Pool) {
    && LockInv(s)
    && SamePool(s, p)
    && SameOwners(s, p)
  }

  predicate SamePool(s: State, p: Pool) {
    var pc := Holder(s);
    && p.stack == (if Grown(pc) then [] else if Releasing(pc) then s.stack + [pc.x] else s.stack)
    && p.created == (if Grown(pc) then s.created - 1 else s.created)
    && p.bodies == (if Grown(pc) then s.bodies - {s.created - 1}
                    else if Releasing(pc) then Store(s.bodies, pc.x, Reset)
                    else s.bodies)
  }

  ghost predicate SameOwners(s: State, p: Pool) {
    && |s.held| == |s.pcs|
    && (forall t: ThreadId, x: SessionId :: t < |s.pcs| ==>
          (x in Owned(s, t) <==> x in p.holder && p.holder[x] == t))
    && (forall x: SessionId :: x in p.holder ==> p.holder[x] < |s.pcs|)
    && (forall t: ThreadId :: t < |s.pcs| ==> s.held[t] !! InHand(s.pcs[t]))
  }

  // ----- simulation -----

  /** What a step does to the atomic pool: at most one event. */
  function Effect(s: State, a: Action): seq<Event>
    requires Enabled(s, a)
  {
    match a
    case Micro(t) =>
      (match s.pcs[t]
       case GetPop(x, _) => [Got(t, x)]
       case PutInit(x) => [Released(t, x)]
       case _ => [])
    case Write(t, x, b) => [Wrote(t, x, b)]
    case Hand(t, u, x) => [Handed(t, u, x)]
    case Touch(t, x, out) => [Touched(t, x, out)]
    case _ => []
  }

  predicate EffectLegal(p: Pool, es: seq<Event>) {
    es != [] ==> Legal(p, es[0])
  }

  function After(p: Pool, es: seq<Event>): Pool
    requires EffectLegal(p, es)
  {
    if es == [] then p else Apply(p, es[0])
  }

  lemma StepLegal(s: State, p: Pool, a: Action)
    requires Refines(s, p) && Inv(p) && Enabled(s, a)
    ensures EffectLegal(p, Effect(s, a))
  {
    match a
    case Micro(t) =>
      if s.pcs[t].PutInit? {
        assert s.pcs[t].x in Owned(s, t);
      }
    case Write(t, x, b) => assert x in Owned(s, t);
    case Hand(t, u, x) => assert x in Owned(s, t);
    case Touch(t, x, out) => KnownIsThere(s, p, x);
    case _ =>
  }

  lemma KnownIsThere(s: State, p: Pool, x: SessionId)
    requires LockInv(s) && SamePool(s, p) && Known(s, x)
    ensures x in p.bodies
  {
  }

  lemma StepLockInv(s: State, p: Pool, a: Action)
    requires Refines(s, p) && Inv(p) && Enabled(s, a)
    ensures LockInv(Next(s, a))
  {
    match a
    case CallGet(_) => CallLockInv(s, a);
    case CallPut(_, _) => CallLockInv(s, a);
    case Micro(t) => if Waiting(s.pcs[t]) { EnterLockInv(s, t); } else { SectionLockInv(s, t); }
    case Write(t, x, b) => WriteLockInv(s, p, t, x, b);
    case Hand(t, u, x) =>
    case Touch(t, x, out) => TouchLockInv(s, t, x, out);
  }

  lemma TouchLockInv(s: State, t: ThreadId, x: SessionId, out: Sending.Outbox)
    requires LockInv(s) && Enabled(s, Touch(t, x, out))
    ensures LockInv(Next(s, Touch(t, x, out)))
  {
    forall u: ThreadId | u < |s.pcs|
      ensures PcFits(Next(s, Touch(t, x, out)), s.pcs[u])
    {
      if InSection(s.pcs[u]) {
        assert Holder(s) == s.pcs[u];
      }
    }
  }

  lemma WriteLockInv(s: State, p: Pool, t: ThreadId, x: SessionId, b: Body)
    requires Refines(s, p) && Inv(p) && Enabled(s, Write(t, x, b))
    ensures LockInv(Next(s, Write(t, x, b)))
  {
    assert x in Owned(s, t);
    forall u: ThreadId | u < |s.pcs|
      ensures PcFits(Next(s, Write(t, x, b)), s.pcs[u])
    {
      if Releasing(s.pcs[u]) {
        HadIsOut(s, p, u, s.pcs[u].x);
      }
    }
  }

  lemma CallLockInv(s: State, a: Action)
    requires LockInv(s) && Enabled(s, a) && (a.CallGet? || a.CallPut?)
    ensures LockInv(Next(s, a))
  {
  }

  lemma EnterLockInv(s: State, t: ThreadId)
    requires LockInv(s) && t < |s.pcs| && Waiting(s.pcs[t]) && s.lock.Free?
    ensures LockInv(MicroNext(s, t))
  {
  }

  lemma SectionLockInv(s: State, t: ThreadId)
    requires LockInv(s) && t < |s.pcs| && InSection(s.pcs[t])
    ensures LockInv(MicroNext(s, t))
  {
    var n := MicroNext(s, t);
    assert forall u: ThreadId :: u < |s.pcs| && u != t ==> !InSection(s.pcs[u]);
    forall u: ThreadId | u < |n.pcs|
      ensures (InSection(n.pcs[u]) <==> n.lock == By(u)) && PcFits(n, n.pcs[u])
    {
      if u == t {
        SectionPcFits(s, t);
      } else {
        assert n.pcs[u] == s.pcs[u];
      }
    }
  }

  lemma SectionPcFits(s: State, t: ThreadId)
    requires |s.held| == |s.pcs| && t < |s.pcs| && InSection(s.pcs[t]) && PcFits(s, s.pcs[t])
    ensures PcFits(MicroNext(s, t), MicroNext(s, t).pcs[t])
  {
  }

  lemma StepPool(s: State, p: Pool, a: Action)
    requires Refines(s, p) && Inv(p) && Enabled(s, a) && EffectLegal(p, Effect(s, a))
    ensures SamePool(Next(s, a), After(p, Effect(s, a)))
  {
    match a
    case CallGet(t) => SameHolder(s, p, a);
    case CallPut(t, x) => SameHolder(s, p, a);
    case Micro(t) => if Waiting(s.pcs[t]) { EnterPool(s, p, t); } else { SectionPool(s, p, t); }
    case Write(t, x, b) => WritePool(s, p, t, x, b);
    case Hand(t, u, x) => SameHolder(s, p, a);
    case Touch(t, x, out) => TouchPool(s, p, t, x, out);
  }

  /** Calls, and passing on, change nothing that the thread in the section looks at. */
  lemma SameHolder(s: State, p: Pool, a: Action)
    requires LockInv(s) && SamePool(s, p) && Enabled(s, a) && (a.CallGet? || a.CallPut? || a.Hand?)
    requires a.Hand? ==> Legal(p, Handed(a.t, a.u, a.x))
    ensures SamePool(Next(s, a), After(p, Effect(s, a)))
  {
    assert Holder(Next(s, a)) == Holder(s);
  }

  lemma EnterPool(s: State, p: Pool, t: ThreadId)
    requires SamePool(s, p) && Enabled(s, Micro(t)) && Waiting(s.pcs[t])
    ensures SamePool(MicroNext(s, t), p) && Effect(s, Micro(t)) == []
  {
  }

  lemma WritePool(s: State, p: Pool, t: ThreadId, x: SessionId, b: Body)
    requires Refines(s, p) && Inv(p) && Enabled(s, Write(t, x, b)) && Legal(p, Wrote(t, x, b))
    ensures SamePool(Next(s, Write(t, x, b)), Apply(p, Wrote(t, x, b)))
  {
    assert x in Owned(s, t);
  }

  /** A touch and a reset in progress do not get in each other's way. */
  lemma TouchPool(s: State, p: Pool, t: ThreadId, x: SessionId, out: Sending.Outbox)
    requires SamePool(s, p) && Enabled(s, Touch(t, x, out)) && Legal(p, Touched(t, x, out))
    ensures SamePool(Next(s, Touch(t, x, out)), Apply(p, Touched(t, x, out)))
  {
    assert Holder(Next(s, Touch(t, x, out))) == Holder(s);
  }

  lemma SectionPool(s: State, p: Pool, t: ThreadId)
    requires LockInv(s) && SamePool(s, p) && Inv(p) && Enabled(s, Micro(t)) && InSection(s.pcs[t])
    requires EffectLegal(p, Effect(s, Micro(t)))
    ensures SamePool(MicroNext(s, t), After(p, Effect(s, Micro(t))))
  {
    assert Holder(s) == s.pcs[t] && PcFits(s, s.pcs[t]);
    match s.pcs[t]
    case GetGrow => GrowPool(s, p, t);
    case GetPop(x, grown) => PopPool(s, p, t);
    case PutInit(x) => ResetPool(s, p, t);
    case PutWrite(x) => ResetPool(s, p, t);
    case PutSocket(x) => ResetPool(s, p, t);
    case PutPush(x) => ResetPool(s, p, t);
    case _ =>
  }

  lemma ResetPool(s: State, p: Pool, t: ThreadId)
    requires t < |s.pcs| == |s.held| && s.lock == By(t) && SamePool(s, p) && PcFits(s, s.pcs[t])
    requires s.pcs[t].PutInit? || Releasing(s.pcs[t])
    requires EffectLegal(p, Effect(s, Micro(t)))
    ensures SamePool(MicroNext(s, t), After(p, Effect(s, Micro(t))))
  {
    match s.pcs[t]
    case PutInit(x) => StoreThenReset(s.bodies, x, ClearRead);
    case PutWrite(x) => StoreThenReset(s.bodies, x, ClearWrite);
    case PutSocket(x) => StoreThenReset(s.bodies, x, ClearSocket);
    case PutPush(x) => assert Store(s.bodies, x, Reset) == s.bodies;
  }

  /** A reset that has begun ends where it would have ended. */
  lemma StoreThenReset(bodies: map<SessionId, Body>, x: SessionId, f: Body -> Body)
    requires forall b: Body :: Reset(f(b)) == Reset(b)
    ensures Store(Store(bodies, x, f), x, Reset) == Store(bodies, x, Reset)
  {
    assert x in bodies ==> Reset(f(bodies[x])) == Reset(bodies[x]);
  }

  lemma GrowPool(s: State, p: Pool, t: ThreadId)
    requires |s.held| == |s.pcs| && t < |s.pcs| && s.pcs[t].GetGrow? && s.lock == By(t) && s.stack == []
    requires SamePool(s, p) && Inv(p)
    ensures SamePool(MicroNext(s, t), p)
  {
    assert s.created !in s.bodies;
  }

  lemma PopPool(s: State, p: Pool, t: ThreadId)
    requires |s.held| == |s.pcs| && t < |s.pcs| && s.pcs[t].GetPop? && s.lock == By(t) && PcFits(s, s.pcs[t])
    requires SamePool(s, p) && Legal(p, Got(t, s.pcs[t].x))
    ensures SamePool(MicroNext(s, t), Apply(p, Got(t, s.pcs[t].x)))
  {
  }

  lemma StepOwners(s: State, p: Pool, a: Action)
    requires Refines(s, p) && Inv(p) && Enabled(s, a) && EffectLegal(p, Effect(s, a))
    ensures SameOwners(Next(s, a), After(p, Effect(s, a)))
  {
    var n, q := Next(s, a), After(p, Effect(s, a));
    HoldersAreThreads(s, p, a);
    forall t: ThreadId, x: SessionId | t < |n.pcs|
      ensures x in Owned(n, t) <==> x in q.holder && q.holder[x] == t
    {
      OwnerAt(s, p, a, t, x);
    }
    forall t: ThreadId | t < |n.pcs|
      ensures n.held[t] !! InHand(n.pcs[t])
    {
      InHandApart(s, p, a, t);
    }
  }

  lemma HoldersAreThreads(s: State, p: Pool, a: Action)
    requires Refines(s, p) && Enabled(s, a) && EffectLegal(p, Effect(s, a))
    ensures forall x: SessionId :: x in After(p, Effect(s, a)).holder ==>
              After(p, Effect(s, a)).holder[x] < |Next(s, a).pcs|
  {
    assert |Next(s, a).pcs| == |s.pcs|;
    forall x: SessionId | x in After(p, Effect(s, a)).holder
      ensures After(p, Effect(s, a)).holder[x] < |s.pcs|
    {
      HolderIsThread(s, p, a, x);
    }
  }

  lemma HolderIsThread(s: State, p: Pool, a: Action, x: SessionId)
    requires Enabled(s, a) && EffectLegal(p, Effect(s, a)) && x in After(p, Effect(s, a)).holder
    requires x in p.holder ==> p.holder[x] < |s.pcs|
    ensures After(p, Effect(s, a)).holder[x] < |s.pcs|
  {
  }

  lemma OwnerAt(s: State, p: Pool, a: Action, t: ThreadId, x: SessionId)
    requires Refines(s, p) && Inv(p) && Enabled(s, a) && EffectLegal(p, Effect(s, a))
    requires t < |s.pcs|
    ensures x in Owned(Next(s, a), t)
       <==> x in After(p, Effect(s, a)).holder && After(p, Effect(s, a)).holder[x] == t
  {
    assert x in Owned(s, t) <==> x in p.holder && p.holder[x] == t;
    match a
    case CallGet(_) =>
    case CallPut(_, _) =>
    case Micro(u) =>
      NextOutIsFree(p);
      OwnerAtMicro(s, p, u, t, x);
    case Write(_, _, _) =>
    case Hand(from, to, y) =>
      assert y in Owned(s, from);
      OwnerAtHand(s, p, a, t, x);
    case Touch(_, _, _) =>
  }

  lemma OwnerAtHand(s: State, p: Pool, a: Action, t: ThreadId, x: SessionId)
    requires Enabled(s, a) && a.Hand? && Legal(p, Handed(a.t, a.u, a.x)) && t < |s.pcs|
    requires s.held[t] !! InHand(s.pcs[t])
    requires x in Owned(s, t) <==> x in p.holder && p.holder[x] == t
    ensures x in Owned(Next(s, a), t) <==> (var q := Apply(p, Handed(a.t, a.u, a.x)); x in q.holder && q.holder[x] == t)
  {
  }

  lemma OwnerAtMicro(s: State, p: Pool, u: ThreadId, t: ThreadId, x: SessionId)
    requires |s.held| == |s.pcs| && Enabled(s, Micro(u)) && EffectLegal(p, Effect(s, Micro(u)))
    requires t < |s.pcs| && s.held[t] !! InHand(s.pcs[t])
    requires x in Owned(s, t) <==> x in p.holder && p.holder[x] == t
    requires s.pcs[u].PutInit? ==> s.pcs[u].x in Owned(s, u)
    requires s.pcs[u].GetPop? ==> s.pcs[u].x !in p.holder && s.stack != []
    ensures x in Owned(MicroNext(s, u), t)
       <==> x in After(p, Effect(s, Micro(u))).holder && After(p, Effect(s, Micro(u))).holder[x] == t
  {
  }

  lemma InHandApart(s: State, p: Pool, a: Action, t: ThreadId)
    requires Refines(s, p) && Inv(p) && Enabled(s, a) && EffectLegal(p, Effect(s, a))
    requires t < |s.pcs|
    ensures Next(s, a).held[t] !! InHand(Next(s, a).pcs[t])
  {
    assert s.held[t] !! InHand(s.pcs[t]);
    match a
    case CallGet(_) =>
    case CallPut(_, _) =>
    case Micro(u) =>
      NextOutIsFree(p);
      MicroApart(s, p, u, t);
    case Write(_, _, _) =>
    case Hand(from, to, y) =>
      assert y in Owned(s, from);
      assert y in Owned(s, t) ==> t == from;
      HandApart(s, a, t);
    case Touch(_, _, _) =>
  }

  lemma HandApart(s: State, a: Action, t: ThreadId)
    requires Enabled(s, a) && a.Hand? && t < |s.pcs| && s.held[t] !! InHand(s.pcs[t])
    requires a.x in Owned(s, t) ==> t == a.t
    ensures Next(s, a).held[t] !! InHand(Next(s, a).pcs[t])
  {
  }

  lemma MicroApart(s: State, p: Pool, u: ThreadId, t: ThreadId)
    requires |s.held| == |s.pcs| && Enabled(s, Micro(u)) && EffectLegal(p, Effect(s, Micro(u)))
    requires t < |s.pcs| && s.held[t] !! InHand(s.pcs[t])
    requires forall x: SessionId :: x in Owned(s, t) ==> x in p.holder
    requires s.pcs[u].GetPop? ==> s.pcs[u].x !in p.holder
    ensures MicroNext(s, u).held[t] !! InHand(MicroNext(s, u).pcs[t])
  {
  }

  /** Every step of every thread is, on the atomic pool, one legal event or none. */
  lemma Simulation(s: State, p: Pool, a: Action)
    requires Refines(s, p) && Inv(p) && Enabled(s, a)
    ensures EffectLegal(p, Effect(s, a))
    ensures Refines(Next(s, a), After(p, Effect(s, a))) && Inv(After(p, Effect(s, a)))
  {
    StepLegal(s, p, a);
    StepLockInv(s, p, a);
    StepPool(s, p, a);
    StepOwners(s, p, a);
    if Effect(s, a) != [] {
      ApplyInv(p, Effect(s, a)[0]);
    }
  }

  lemma StartRefines(n: nat, threads: nat)
    ensures Refines(Start(n, threads), Filled(n)) && Inv(Filled(n))
  {
    FilledInv(n);
  }

  /** The events of an interleaving, in the order in which they take effect. */
  function Events(s: State, acts: seq<Action>): seq<Event>
    requires LegalTrace(s, acts)
  {
    if acts == [] then []
    else
      var init := acts[..|acts| - 1];
      Events(s, init) + Effect(Trace(s, init), acts[|acts| - 1])
  }

  /** Refinement: any interleaving of any number of threads does what a sequential run of the atomic pool does. */
  lemma {:induction false} Refinement(n: nat, threads: nat, acts: seq<Action>)
    requires LegalTrace(Start(n, threads), acts)
    ensures var es := Events(Start(n, threads), acts);
            && LegalRun(Filled(n), es)
            && Inv(Run(Filled(n), es))
            && Refines(Trace(Start(n, threads), acts), Run(Filled(n), es))
    decreases |acts|
  {
    var s := Start(n, threads);
    StartRefines(n, threads);
    if acts != [] {
      var init, last := acts[..|acts| - 1], acts[|acts| - 1];
      Refinement(n, threads, init);
      RefinementStep(Filled(n), Events(s, init), Trace(s, init), last);
    }
  }

  lemma RefinementStep(p: Pool, es: seq<Event>, s: State, a: Action)
    requires LegalRun(p, es) && Inv(Run(p, es)) && Refines(s, Run(p, es)) && Enabled(s, a)
    ensures LegalRun(p, es + Effect(s, a))
    ensures Inv(Run(p, es + Effect(s, a)))
    ensures Refines(Next(s, a), Run(p, es + Effect(s, a)))
  {
    Simulation(s, Run(p, es), a);
    RunEffect(p, es, Effect(s, a));
  }

  lemma RunEffect(p: Pool, es: seq<Event>, effect: seq<Event>)
    requires LegalRun(p, es) && |effect| <= 1 && EffectLegal(Run(p, es), effect)
    ensures LegalRun(p, es + effect) && Run(p, es + effect) == After(Run(p, es), effect)
  {
    if effect == [] {
      assert es + effect == es;
    } else {
      assert effect == [effect[0]];
      RunSnoc(p, es, effect[0]);
    }
  }

  // ----- which interleavings there are -----

  lemma TraceTo(s: State, acts: seq<Action>, m: State, a: Action, next: State)
    requires LegalTrace(s, acts) && Trace(s, acts) == m && Enabled(m, a) && Next(m, a) == next
    ensures LegalTrace(s, acts + [a]) && Trace(s, acts + [a]) == next
  {
    assert (acts + [a])[..|acts + [a]| - 1] == acts;
  }

  lemma TraceSnoc(s: State, acts: seq<Action>, a: Action)
    requires LegalTrace(s, acts)
    ensures LegalTrace(s, acts + [a]) <==> Enabled(Trace(s, acts), a)
  {
    assert (acts + [a])[..|acts + [a]| - 1] == acts;
  }

  /** The sessions that can be touched are those that Init pushed and those that a Get has popped. */
  lemma KnownExactly(n: nat, threads: nat, acts: seq<Action>, x: SessionId)
    requires LegalTrace(Start(n, threads), acts)
    ensures Known(Trace(Start(n, threads), acts), x) <==> x < n || EverGot(Events(Start(n, threads), acts), x)
  {
    Refinement(n, threads, acts);
    ExistsExactly(n, Events(Start(n, threads), acts), x);
    KnownWhileRefining(Trace(Start(n, threads), acts), Run(Filled(n), Events(Start(n, threads), acts)), x);
  }

  lemma KnownWhileRefining(s: State, p: Pool, x: SessionId)
    requires Refines(s, p) && Inv(p)
    ensures Known(s, x) <==> x in p.bodies
  {
    if Grown(Holder(s)) {
      assert PcFits(s, Holder(s));
    }
  }

  /** In every interleaving, whoever is in the section, a thread outside its calls can call Get. */
  lemma GetAnytime(n: nat, threads: nat, acts: seq<Action>, t: ThreadId)
    requires LegalTrace(Start(n, threads), acts) && t < threads
    ensures |Trace(Start(n, threads), acts).held| == |Trace(Start(n, threads), acts).pcs| == threads
    ensures LegalTrace(Start(n, threads), acts + [CallGet(t)]) <==> Trace(Start(n, threads), acts).pcs[t].Outside?
  {
    SameThreads(Start(n, threads), acts);
    TraceSnoc(Start(n, threads), acts, CallGet(t));
  }

  /** It can release, write to and pass on to any thread exactly the sessions it holds. */
  lemma HolderIsFree(n: nat, threads: nat, acts: seq<Action>, t: ThreadId, u: ThreadId, x: SessionId, b: Body)
    requires LegalTrace(Start(n, threads), acts) && t < |Trace(Start(n, threads), acts).pcs|
    requires Trace(Start(n, threads), acts).pcs[t].Outside? && u < threads
    ensures |Trace(Start(n, threads), acts).held| == |Trace(Start(n, threads), acts).pcs| == threads
    ensures var holds := x in Trace(Start(n, threads), acts).held[t];
            && (LegalTrace(Start(n, threads), acts + [CallPut(t, x)]) <==> holds)
            && (LegalTrace(Start(n, threads), acts + [Write(t, x, b)]) <==> holds)
            && (LegalTrace(Start(n, threads), acts + [Hand(t, u, x)]) <==> holds)
  {
    SameThreads(Start(n, threads), acts);
    WithHeld(Start(n, threads), acts, Trace(Start(n, threads), acts), t, u, x, b);
  }

  lemma WithHeld(s: State, acts: seq<Action>, m: State, t: ThreadId, u: ThreadId, x: SessionId, b: Body)
    requires LegalTrace(s, acts) && Trace(s, acts) == m
    requires t < |m.pcs| == |m.held| && u < |m.pcs| && m.pcs[t].Outside?
    ensures LegalTrace(s, acts + [CallPut(t, x)]) <==> x in m.held[t]
    ensures LegalTrace(s, acts + [Write(t, x, b)]) <==> x in m.held[t]
    ensures LegalTrace(s, acts + [Hand(t, u, x)]) <==> x in m.held[t]
  {
    TraceSnoc(s, acts, CallPut(t, x));
    TraceSnoc(s, acts, Write(t, x, b));
    TraceSnoc(s, acts, Hand(t, u, x));
  }

  /**
   * The send side of every session that Init pushed or a Get has popped can change at any moment, on
   * every thread outside its calls, whoever holds the session or has begun to reset it.
   */
  lemma TouchAnywhere(n: nat, threads: nat, acts: seq<Action>, t: ThreadId, x: SessionId, out: Sending.Outbox)
    requires LegalTrace(Start(n, threads), acts)
    requires t < |Trace(Start(n, threads), acts).pcs| && Trace(Start(n, threads), acts).pcs[t].Outside?
    ensures LegalTrace(Start(n, threads), acts + [Touch(t, x, out)])
       <==> x < n || EverGot(Events(Start(n, threads), acts), x)
  {
    SameThreads(Start(n, threads), acts);
    KnownExactly(n, threads, acts, x);
    TouchWhenKnown(Start(n, threads), acts, Trace(Start(n, threads), acts), t, x, out);
  }

  lemma TouchWhenKnown(s: State, acts: seq<Action>, m: State, t: ThreadId, x: SessionId, out: Sending.Outbox)
    requires LegalTrace(s, acts) && Trace(s, acts) == m && t < |m.pcs| == |m.held| && m.pcs[t].Outside?
    ensures LegalTrace(s, acts + [Touch(t, x, out)]) <==> Known(m, x)
  {
    TraceSnoc(s, acts, Touch(t, x, out));
  }

  lemma {:induction false} SameThreads(s: State, acts: seq<Action>)
    requires LegalTrace(s, acts)
    ensures |Trace(s, acts).pcs| == |s.pcs| && |Trace(s, acts).held| == |s.held|
  {
    if acts != [] {
      SameThreads(s, acts[..|acts| - 1]);
    }
  }

  /** A thread in a call can go on exactly when it is in the section or the lock is free. */
  lemma GoesOnExactly(n: nat, threads: nat, acts: seq<Action>, t: ThreadId)
    requires LegalTrace(Start(n, threads), acts) && t < |Trace(Start(n, threads), acts).pcs|
    ensures var s := Trace(Start(n, threads), acts);
            LegalTrace(Start(n, threads), acts + [Micro(t)])
            <==> InSection(s.pcs[t]) || (Waiting(s.pcs[t]) && s.lock.Free?)
  {
    Refinement(n, threads, acts);
    TraceSnoc(Start(n, threads), acts, Micro(t));
    assert PcFits(Trace(Start(n, threads), acts), Trace(Start(n, threads), acts).pcs[t]);
  }

  /** Only thread `t` is in a call, or all threads below `k` wait as well. */
  predicate Behind(pcs: seq<Pc>, t: ThreadId, pc: Pc, k: nat) {
    && t < |pcs| && pcs[t] == pc
    && forall u :: 0 <= u < |pcs| && u != t ==> pcs[u] == if u < k then GetWait else Outside
  }

  /** The threads below `k` but `t` wait. */
  function Queued(pcs: seq<Pc>, t: ThreadId, k: nat): (r: seq<Pc>)
    requires k <= |pcs|
    ensures |r| == |pcs|
  {
    if k == 0 then pcs
    else if k - 1 == t then Queued(pcs, t, k - 1)
    else Queued(pcs, t, k - 1)[k - 1 := GetWait]
  }

  lemma {:induction false} QueuedBehind(pcs: seq<Pc>, t: ThreadId, pc: Pc, k: nat)
    requires k <= |pcs| && Behind(pcs, t, pc, 0)
    ensures Behind(Queued(pcs, t, k), t, pc, k)
  {
    if k > 0 {
      QueuedBehind(pcs, t, pc, k - 1);
    }
  }

  /** None of the threads below `k` but `t` is in a call. */
  predicate Idlers(pcs: seq<Pc>, t: ThreadId, k: nat)
    requires k <= |pcs|
  {
    k == 0 || (Idlers(pcs, t, k - 1) && (k - 1 != t ==> Queued(pcs, t, k - 1)[k - 1].Outside?))
  }

  lemma {:induction false} BehindIdlers(pcs: seq<Pc>, t: ThreadId, pc: Pc, k: nat)
    requires k <= |pcs| && Behind(pcs, t, pc, 0)
    ensures Idlers(pcs, t, k)
  {
    if k > 0 {
      BehindIdlers(pcs, t, pc, k - 1);
      QueuedBehind(pcs, t, pc, k - 1);
    }
  }

  /** They call Get one after the other. */
  lemma {:induction false} QueueUp(s: State, acts: seq<Action>, m: State, t: ThreadId, k: nat)
    returns (more: seq<Action>)
    requires LegalTrace(s, acts) && Trace(s, acts) == m && |m.held| == |m.pcs| && k <= |m.pcs|
    requires Idlers(m.pcs, t, k)
    ensures LegalTrace(s, more) && Trace(s, more) == m.(pcs := Queued(m.pcs, t, k))
  {
    more := acts;
    if k > 0 {
      more := QueueUp(s, acts, m, t, k - 1);
      if k - 1 != t {
        OneMoreWaits(s, more, m.(pcs := Queued(m.pcs, t, k - 1)), k - 1);
        more := more + [CallGet(k - 1)];
      }
    }
  }

  lemma OneMoreWaits(s: State, acts: seq<Action>, m: State, u: ThreadId)
    requires LegalTrace(s, acts) && Trace(s, acts) == m && u < |m.pcs| == |m.held| && m.pcs[u].Outside?
    ensures LegalTrace(s, acts + [CallGet(u)])
    ensures Trace(s, acts + [CallGet(u)]) == m.(pcs := m.pcs[u := GetWait])
  {
    TraceTo(s, acts, m, CallGet(u), m.(pcs := m.pcs[u := GetWait]));
  }

  /** The points a thread goes through alone: a Get, and the Release of the session it got. */
  function Points(n: nat): seq<Pc> {
    var x := First(n);
    (if n == 0 then [Outside, GetWait, GetTest, GetGrow, GetTop(true), GetPop(x, true), GetExit(x)]
     else [Outside, GetWait, GetTest, GetTop(false), GetPop(x, false), GetExit(x)])
    + [Outside, PutWait(x), PutInit(x), PutWrite(x), PutSocket(x), PutPush(x), PutExit(x)]
  }

  function First(n: nat): SessionId {
    if n == 0 then 0 else n - 1
  }

  /** Its next action there. */
  function Act(n: nat, t: ThreadId, k: nat): Action {
    if k == 0 then CallGet(t)
    else if k < |Points(n)| && Points(n)[k].Outside? then CallPut(t, First(n))
    else Micro(t)
  }

  /** What is true of the state there, as far as the next action depends on it. */
  predicate Ready(n: nat, m: State, t: ThreadId, k: nat)
    requires t < |m.pcs| == |m.held|
  {
    match m.pcs[t]
    case Outside => m.lock.Free? && if k == 0 then m.stack == UpTo(n) && m.created == n else First(n) in m.held[t]
    case GetWait => m.lock.Free? && m.stack == UpTo(n) && m.created == n
    case GetTest => m.stack == UpTo(n) && m.created == n
    case GetGrow => m.stack == [] && m.created == 0
    case GetTop(_) => m.stack != [] && m.stack[|m.stack| - 1] == First(n)
    case GetPop(_, _) => m.stack != []
    case PutWait(_) => m.lock.Free?
    case _ => true
  }

  lemma ActReady(n: nat, m: State, t: ThreadId, k: nat)
    requires t < |m.pcs| == |m.held| && k + 1 < |Points(n)| && m.pcs[t] == Points(n)[k] && Ready(n, m, t, k)
    ensures Enabled(m, Act(n, t, k))
    ensures var next := Next(m, Act(n, t, k));
            && next.pcs == m.pcs[t := Points(n)[k + 1]] && |next.held| == |m.held|
            && Ready(n, next, t, k + 1)
  {
  }

  lemma {:induction false} AloneAt(n: nat, threads: nat, t: ThreadId, k: nat) returns (acts: seq<Action>, m: State)
    requires t < threads && k < |Points(n)|
    ensures LegalTrace(Start(n, threads), acts) && Trace(Start(n, threads), acts) == m
    ensures |m.held| == threads && m.pcs == Start(n, threads).pcs[t := Points(n)[k]] && Ready(n, m, t, k)
  {
    if k == 0 {
      acts, m := [], Start(n, threads);
    } else {
      acts, m := AloneAt(n, threads, t, k - 1);
      ActReady(n, m, t, k - 1);
      TraceTo(Start(n, threads), acts, m, Act(n, t, k - 1), Next(m, Act(n, t, k - 1)));
      acts, m := acts + [Act(n, t, k - 1)], Next(m, Act(n, t, k - 1));
    }
  }

  /**
   * All other threads can wait while one is at any point of a Get, one that finds a session and one that
   * constructs it, or of a Release.
   */
  lemma WaitAtEveryPoint(n: nat, threads: nat, t: ThreadId, k: nat) returns (acts: seq<Action>)
    requires t < threads && k < |Points(n)|
    ensures LegalTrace(Start(n, threads), acts)
    ensures |Trace(Start(n, threads), acts).pcs| == threads
    ensures Behind(Trace(Start(n, threads), acts).pcs, t, Points(n)[k], threads)
  {
    var alone, m := AloneAt(n, threads, t, k);
    QueuedBehind(m.pcs, t, Points(n)[k], threads);
    BehindIdlers(m.pcs, t, Points(n)[k], threads);
    acts := QueueUp(Start(n, threads), alone, m, t, threads);
  }

  // ----- order of calls -----

  /** The thread that enters the section with this step. */
  function Entry(s: State, a: Action): seq<ThreadId>
    requires Enabled(s, a)
  {
    if a.Micro? && Waiting(s.pcs[a.t]) then [a.t] else []
  }

  /** The call that returns with this step, and its result. */
  function Return(s: State, a: Action): seq<Event>
    requires Enabled(s, a)
  {
    if a.Micro? && s.pcs[a.t].GetExit? then [Got(a.t, s.pcs[a.t].x)]
    else if a.Micro? && s.pcs[a.t].PutExit? then [Released(a.t, s.pcs[a.t].x)]
    else []
  }

  predicate IsCall(e: Event) {
    e.Got? || e.Released?
  }

  /** The Get and Release calls among the events. */
  function Calls(es: seq<Event>): seq<Event> {
    if es == [] then []
    else
      var init, last := es[..|es| - 1], es[|es| - 1];
      Calls(init) + if IsCall(last) then [last] else []
  }

  function Threads(es: seq<Event>): seq<ThreadId> {
    seq(|es|, i requires 0 <= i < |es| => es[i].t)
  }

  /** Threads in the order in which they took the lock. */
  function LockOrder(s: State, acts: seq<Action>): seq<ThreadId>
    requires LegalTrace(s, acts)
  {
    if acts == [] then []
    else
      var init := acts[..|acts| - 1];
      LockOrder(s, init) + Entry(Trace(s, init), acts[|acts| - 1])
  }

  /** Completed calls with their results, in the order in which they released the lock. */
  function Returned(s: State, acts: seq<Action>): seq<Event>
    requires LegalTrace(s, acts)
  {
    if acts == [] then []
    else
      var init := acts[..|acts| - 1];
      Returned(s, init) + Return(Trace(s, init), acts[|acts| - 1])
  }

  /** The thread in the section whose call has not taken effect yet. */
  function Undecided(s: State): seq<ThreadId> {
    match Holder(s)
    case GetTest => [s.lock.t]
    case GetGrow => [s.lock.t]
    case GetTop(_) => [s.lock.t]
    case GetPop(_, _) => [s.lock.t]
    case PutInit(_) => [s.lock.t]
    case _ => []
  }

  /** The call in the section that has taken effect and not returned yet. */
  function Unreturned(s: State): seq<Event> {
    match Holder(s)
    case GetExit(x) => [Got(s.lock.t, x)]
    case PutWrite(x) => [Released(s.lock.t, x)]
    case PutSocket(x) => [Released(s.lock.t, x)]
    case PutPush(x) => [Released(s.lock.t, x)]
    case PutExit(x) => [Released(s.lock.t, x)]
    case _ => []
  }

  /** Each step moves at most one call on: into the section, into effect, or out of the section. */
  ghost predicate OrderKept(s: State, a: Action)
    requires Enabled(s, a)
  {
    && Undecided(s) + Entry(s, a) == Threads(Calls(Effect(s, a))) + Undecided(Next(s, a))
    && Unreturned(s) + Calls(Effect(s, a)) == Return(s, a) + Unreturned(Next(s, a))
  }

  lemma OneCall(e: Event)
    ensures Calls([e]) == (if IsCall(e) then [e] else [])
    ensures Threads(Calls([e])) == (if IsCall(e) then [e.t] else [])
  {
    assert [e][..0] == [];
    assert Calls([e]) == Calls([]) + (if IsCall(e) then [e] else []);
  }

  lemma StepOrder(s: State, a: Action)
    requires LockInv(s) && Enabled(s, a)
    ensures OrderKept(s, a)
  {
    match a
    case CallGet(_) => assert Holder(Next(s, a)) == Holder(s);
    case CallPut(_, _) => assert Holder(Next(s, a)) == Holder(s);
    case Micro(t) => if Waiting(s.pcs[t]) { EnterOrder(s, t); } else { SectionOrder(s, t); }
    case Write(t, x, b) => OneCall(Wrote(t, x, b));
    case Hand(t, u, x) => OneCall(Handed(t, u, x));
    case Touch(t, x, out) => OneCall(Touched(t, x, out));
  }

  lemma EnterOrder(s: State, t: ThreadId)
    requires |s.held| == |s.pcs| && Enabled(s, Micro(t)) && Waiting(s.pcs[t])
    ensures OrderKept(s, Micro(t))
  {
    assert Effect(s, Micro(t)) == [] && Calls([]) == [] && Threads([]) == [];
  }

  lemma SectionOrder(s: State, t: ThreadId)
    requires LockInv(s) && Enabled(s, Micro(t)) && InSection(s.pcs[t])
    ensures OrderKept(s, Micro(t))
  {
    assert Holder(s) == s.pcs[t] && PcFits(s, s.pcs[t]);
    match s.pcs[t]
    case GetPop(x, _) => PopOrder(s, t);
    case PutInit(x) => ResetOrder(s, t);
    case _ => OtherOrder(s, t);
  }

  lemma PopOrder(s: State, t: ThreadId)
    requires |s.held| == |s.pcs| && Enabled(s, Micro(t)) && s.lock == By(t) && s.pcs[t].GetPop? && PcFits(s, s.pcs[t])
    ensures OrderKept(s, Micro(t))
  {
    OneCall(Got(t, s.pcs[t].x));
  }

  lemma ResetOrder(s: State, t: ThreadId)
    requires |s.held| == |s.pcs| && Enabled(s, Micro(t)) && s.lock == By(t) && s.pcs[t].PutInit?
    ensures OrderKept(s, Micro(t))
  {
    OneCall(Released(t, s.pcs[t].x));
    ResetDecides(s, t);
  }

  lemma ResetDecides(s: State, t: ThreadId)
    requires |s.held| == |s.pcs| && Enabled(s, Micro(t)) && s.lock == By(t) && s.pcs[t].PutInit?
    ensures Effect(s, Micro(t)) == [Released(t, s.pcs[t].x)]
    ensures Entry(s, Micro(t)) == [] && Return(s, Micro(t)) == []
    ensures Undecided(s) == [t] && Undecided(Next(s, Micro(t))) == []
    ensures Unreturned(s) == [] && Unreturned(Next(s, Micro(t))) == [Released(t, s.pcs[t].x)]
  {
  }

  lemma OtherOrder(s: State, t: ThreadId)
    requires |s.held| == |s.pcs| && Enabled(s, Micro(t)) && s.lock == By(t) && InSection(s.pcs[t])
    requires !s.pcs[t].GetPop? && !s.pcs[t].PutInit? && PcFits(s, s.pcs[t])
    ensures OrderKept(s, Micro(t))
  {
    assert Effect(s, Micro(t)) == [] && Calls([]) == [] && Threads([]) == [];
  }

  lemma CallsAppend(es: seq<Event>, effect: seq<Event>)
    requires |effect| <= 1
    ensures Calls(es + effect) == Calls(es) + Calls(effect)
    ensures Threads(Calls(es + effect)) == Threads(Calls(es)) + Threads(Calls(effect))
  {
    if effect == [] {
      assert es + effect == es;
    } else {
      assert (es + effect)[..|es + effect| - 1] == es;
      assert effect[..0] == [];
    }
  }

  /**
   * Linearizability: the calls that have returned, with their results and in the order in which their
   * threads held the lock, are the calls of the sequential run of Refinement; at most one more call
   * has taken effect and not returned, and at most one thread in the section has not decided yet.
   */
  lemma {:induction false} Linearizability(n: nat, threads: nat, acts: seq<Action>)
    requires LegalTrace(Start(n, threads), acts)
    ensures var s := Start(n, threads);
            var calls := Calls(Events(s, acts));
            && calls == Returned(s, acts) + Unreturned(Trace(s, acts))
            && LockOrder(s, acts) == Threads(calls) + Undecided(Trace(s, acts))
    decreases |acts|
  {
    var s := Start(n, threads);
    if acts != [] {
      var init, last := acts[..|acts| - 1], acts[|acts| - 1];
      Linearizability(n, threads, init);
      Refinement(n, threads, init);
      var m := Trace(s, init);
      StepOrder(m, last);
      CallsAppend(Events(s, init), Effect(m, last));
      OrderJoin(Returned(s, init), Unreturned(m), Calls(Effect(m, last)), Return(m, last), Unreturned(Next(m, last)));
      OrderJoin(Threads(Calls(Events(s, init))), Undecided(m), Entry(m, last),
                Threads(Calls(Effect(m, last))), Undecided(Next(m, last)));
    }
  }

  lemma OrderJoin<T>(a: seq<T>, b: seq<T>, c: seq<T>, d: seq<T>, e: seq<T>)
    requires b + c == d + e
    ensures (a + b) + c == (a + d) + e
  {
    assert (a + b) + c == a + (b + c);
  }

  // ----- consequences for every reachable state -----

  /** No thread ever reads the top of, or pops, an empty stack. */
  lemma {:induction false} StackSafety(n: nat, threads: nat, acts: seq<Action>, t: ThreadId)
    requires LegalTrace(Start(n, threads), acts)
    requires t < |Trace(Start(n, threads), acts).pcs|
    ensures var s := Trace(Start(n, threads), acts);
            && !s.pcs[t].Broken?
            && (s.pcs[t].GetTop? || s.pcs[t].GetPop? ==> s.stack != [])
  {
    Refinement(n, threads, acts);
    assert PcFits(Trace(Start(n, threads), acts), Trace(Start(n, threads), acts).pcs[t]);
  }

  /** The session that a call has in its hands, up to the push that puts it on the stack. */
  function InCall(pc: Pc): set<SessionId> {
    if Releasing(pc) then {pc.x} else InHand(pc)
  }

  /** All that thread `t` has. */
  function Has(s: State, t: ThreadId): set<SessionId>
    requires t < |s.pcs| == |s.held|
  {
    s.held[t] + InCall(s.pcs[t])
  }

  /** No session is on the stack twice, with two threads, twice with one, or both on the stack and with a thread. */
  ghost predicate Exclusive(s: State) {
    && |s.held| == |s.pcs|
    && Distinct(s.stack)
    && (forall x: SessionId :: x in s.stack ==> x < s.created)
    && (forall t: ThreadId, x: SessionId :: t < |s.pcs| && x in Has(s, t) ==> x !in s.stack && x < s.created)
    && (forall t: ThreadId, u: ThreadId :: t < u < |s.pcs| ==> Has(s, t) !! Has(s, u))
    && (forall t: ThreadId :: t < |s.pcs| ==> s.held[t] !! InCall(s.pcs[t]))
  }

  lemma HasApart(s: State, t: ThreadId, u: ThreadId, x: SessionId)
    requires Exclusive(s) && t < |s.pcs| && u < |s.pcs| && x in Has(s, t) && x in Has(s, u)
    ensures t == u
  {
  }

  lemma HasOut(s: State, t: ThreadId, x: SessionId)
    requires Exclusive(s) && t < |s.pcs| && x in Has(s, t)
    ensures x !in s.stack && x < s.created
  {
  }

  /** Every session is on the stack or with a thread. */
  ghost predicate Placed(s: State)
    requires |s.held| == |s.pcs|
  {
    forall x: SessionId :: x < s.created ==> x in s.stack || exists t: ThreadId :: t < |s.pcs| && x in Has(s, t)
  }

  /** Every session is in exactly one place. */
  ghost predicate OnePlace(s: State) {
    Exclusive(s) && Placed(s)
  }

  /** Exclusive ownership in every reachable state. */
  lemma ExclusiveOwnership(n: nat, threads: nat, acts: seq<Action>)
    requires LegalTrace(Start(n, threads), acts)
    ensures Exclusive(Trace(Start(n, threads), acts))
  {
    Refinement(n, threads, acts);
    ExclusiveWhileRefining(Trace(Start(n, threads), acts), Run(Filled(n), Events(Start(n, threads), acts)));
  }

  lemma ExclusiveWhileRefining(s: State, p: Pool)
    requires Refines(s, p) && Inv(p)
    ensures Exclusive(s)
  {
    StackOfState(s, p);
    forall t: ThreadId, x: SessionId | t < |s.pcs| && x in Has(s, t)
      ensures x !in s.stack && x < s.created
    {
      HadIsOut(s, p, t, x);
    }
    forall t: ThreadId | t < |s.pcs|
      ensures s.held[t] !! InCall(s.pcs[t])
    {
      HeldNotInCall(s, p, t);
    }
    forall t: ThreadId, u: ThreadId | t < u < |s.pcs|
      ensures Has(s, t) !! Has(s, u)
    {
      OwnersApart(s, p, t, u);
    }
  }

  lemma HadIsOut(s: State, p: Pool, t: ThreadId, x: SessionId)
    requires Refines(s, p) && Inv(p) && t < |s.pcs| && x in Has(s, t)
    ensures x !in s.stack && x < s.created
    ensures x in p.holder <==> x in Owned(s, t)
  {
    StackOfState(s, p);
    if x in Owned(s, t) {
      assert x in p.holder && x in p.bodies;
    } else {
      assert Holder(s) == s.pcs[t];
      assert p.stack == s.stack + [x];
      assert forall i :: 0 <= i < |s.stack| ==> p.stack[i] == s.stack[i] && p.stack[i] != p.stack[|s.stack|];
      assert x in p.stack && x in p.bodies;
    }
  }

  lemma HeldNotInCall(s: State, p: Pool, t: ThreadId)
    requires Refines(s, p) && Inv(p) && t < |s.pcs|
    ensures s.held[t] !! InCall(s.pcs[t])
  {
    if Releasing(s.pcs[t]) {
      var x := s.pcs[t].x;
      HadIsOut(s, p, t, x);
      assert Holder(s) == s.pcs[t] && p.stack == s.stack + [x];
      assert p.stack[|s.stack|] == x;
    }
  }

  lemma OwnersApart(s: State, p: Pool, t: ThreadId, u: ThreadId)
    requires Refines(s, p) && Inv(p) && t < u < |s.pcs|
    ensures Has(s, t) !! Has(s, u)
  {
    forall x: SessionId | x in Has(s, t)
      ensures x !in Has(s, u)
    {
      if x in Has(s, u) {
        HadIsOut(s, p, t, x);
        HadIsOut(s, p, u, x);
      }
    }
  }

  lemma StackOfState(s: State, p: Pool)
    requires Refines(s, p) && Inv(p)
    ensures Distinct(s.stack)
    ensures forall x: SessionId :: x in s.stack ==> (x in p.stack || x !in p.bodies) && x < s.created
  {
    if Releasing(Holder(s)) {
      assert p.stack == s.stack + [Holder(s).x];
      assert s.stack == p.stack[..|s.stack|];
      assert forall x: SessionId :: x in s.stack ==> x in p.stack && x in p.bodies;
    } else if Grown(Holder(s)) {
      assert PcFits(s, Holder(s));
    } else {
      assert forall x: SessionId :: x in s.stack ==> x in p.stack && x in p.bodies;
    }
  }

  /** Nothing is lost: in every reachable state every session is on the stack or with a thread. */
  lemma NothingLost(n: nat, threads: nat, acts: seq<Action>)
    requires LegalTrace(Start(n, threads), acts)
    ensures Placed(Trace(Start(n, threads), acts))
  {
    Refinement(n, threads, acts);
    PlacedWhileRefining(Trace(Start(n, threads), acts), Run(Filled(n), Events(Start(n, threads), acts)));
  }

  lemma PlacedWhileRefining(s: State, p: Pool)
    requires Refines(s, p) && Inv(p)
    ensures Placed(s)
  {
    forall x: SessionId | x < s.created
      ensures x in s.stack || exists t: ThreadId :: t < |s.pcs| && x in Has(s, t)
    {
      PlaceOf(s, p, x);
      if x in p.holder {
        assert x in Owned(s, p.holder[x]);
        assert x in Has(s, p.holder[x]);
      } else if x !in s.stack {
        assert x in Has(s, s.lock.t);
      }
    }
  }

  lemma PlaceOf(s: State, p: Pool, x: SessionId)
    requires Refines(s, p) && Inv(p) && x < s.created
    ensures x in s.stack || (Releasing(Holder(s)) && Holder(s).x == x) || x in p.holder
  {
    if Grown(Holder(s)) {
      assert PcFits(s, Holder(s));
      assert x < p.created ==> x in p.bodies;
    } else {
      assert x in p.bodies;
      if Releasing(Holder(s)) {
        assert p.stack == s.stack + [Holder(s).x];
      }
    }
  }

  /** Every session ever constructed was needed: the exact allocation bound, in any interleaving. */
  lemma {:induction false} ConcurrentAllocationBound(n: nat, threads: nat, acts: seq<Action>)
    requires LegalTrace(Start(n, threads), acts)
    ensures LegalRun(Filled(n), Events(Start(n, threads), acts))
    ensures var s := Trace(Start(n, threads), acts);
            s.created == Max(n, Peak(Filled(n), Events(Start(n, threads), acts)))
                       + (if Grown(Holder(s)) then 1 else 0)
  {
    Refinement(n, threads, acts);
    AllocationBound(n, Events(Start(n, threads), acts));
    var s := Trace(Start(n, threads), acts);
    if Grown(Holder(s)) {
      assert PcFits(s, Holder(s));
    }
  }

  /** When a Get is about to return after a step, nothing has happened to its session since it was popped. */
  lemma StepJustGot(s: State, p: Pool, es: seq<Event>, a: Action, t: ThreadId)
    requires Refines(s, p) && Enabled(s, a) && t < |s.pcs| && Next(s, a).pcs[t].GetExit?
    requires s.pcs[t].GetExit? ==> JustGot(es, s.pcs[t].x)
    ensures JustGot(es + Effect(s, a), Next(s, a).pcs[t].x)
  {
    if s.pcs[t].GetExit? {
      OthersElsewhere(s, p, a, t);
      JustGotKept(es, Effect(s, a), s.pcs[t].x);
    } else {
      PopsNow(s, a, t);
      assert (es + Effect(s, a))[|es + Effect(s, a)| - 1] == Got(t, Next(s, a).pcs[t].x);
    }
  }

  lemma JustGotKept(es: seq<Event>, effect: seq<Event>, x: SessionId)
    requires JustGot(es, x) && |effect| <= 1 && forall e :: e in effect ==> e.x != x || e.Touched?
    ensures JustGot(es + effect, x)
  {
    if effect == [] {
      assert es + effect == es;
    } else {
      assert (es + effect)[..|es + effect| - 1] == es;
    }
  }

  lemma PopsNow(s: State, a: Action, t: ThreadId)
    requires Enabled(s, a) && t < |s.pcs| && !s.pcs[t].GetExit? && Next(s, a).pcs[t].GetExit?
    ensures Effect(s, a) == [Got(t, Next(s, a).pcs[t].x)]
  {
  }

  /** Meanwhile the other threads write to and pass on other sessions, and nobody else is in the section. */
  lemma OthersElsewhere(s: State, p: Pool, a: Action, t: ThreadId)
    requires Refines(s, p) && Enabled(s, a) && t < |s.pcs|
    requires s.pcs[t].GetExit? && Next(s, a).pcs[t].GetExit?
    ensures Next(s, a).pcs[t] == s.pcs[t]
    ensures forall e :: e in Effect(s, a) ==> e.x != s.pcs[t].x || e.Touched?
  {
    assert s.pcs[t].x in Owned(s, t) && s.lock == By(t);
    if a.Write? || a.Hand? {
      assert a.x in Owned(s, a.t);
      assert p.holder[a.x] == a.t && p.holder[s.pcs[t].x] == t;
    }
  }

  lemma {:induction false} ReturnsJustGot(n: nat, threads: nat, acts: seq<Action>, t: ThreadId)
    requires LegalTrace(Start(n, threads), acts)
    requires t < |Trace(Start(n, threads), acts).pcs| && Trace(Start(n, threads), acts).pcs[t].GetExit?
    ensures JustGot(Events(Start(n, threads), acts), Trace(Start(n, threads), acts).pcs[t].x)
    decreases |acts|
  {
    if acts != [] {
      var init, last := acts[..|acts| - 1], acts[|acts| - 1];
      var m := Trace(Start(n, threads), init);
      if t < |m.pcs| && m.pcs[t].GetExit? {
        ReturnsJustGot(n, threads, init, t);
      }
      NextJustGot(n, threads, init, last, t);
    }
  }

  lemma NextJustGot(n: nat, threads: nat, acts: seq<Action>, a: Action, t: ThreadId)
    requires LegalTrace(Start(n, threads), acts)
    requires var m := Trace(Start(n, threads), acts);
             && Enabled(m, a) && t < |m.pcs| && Next(m, a).pcs[t].GetExit?
             && (m.pcs[t].GetExit? ==> JustGot(Events(Start(n, threads), acts), m.pcs[t].x))
    ensures var m := Trace(Start(n, threads), acts);
            JustGot(Events(Start(n, threads), acts) + Effect(m, a), Next(m, a).pcs[t].x)
  {
    var es := Events(Start(n, threads), acts);
    Refinement(n, threads, acts);
    StepJustGot(Trace(Start(n, threads), acts), Run(Filled(n), es), es, a, t);
  }

  /**
   * Clean handout in every interleaving, although a reset is three stores: a session that a Get
   * returns has a cleared receive side and no socket, has the send side its last holder left, and is
   * as new exactly when that was idle.
   */
  lemma ConcurrentCleanHandout(n: nat, threads: nat, acts: seq<Action>, t: ThreadId)
    requires LegalTrace(Start(n, threads), acts)
    requires t < |Trace(Start(n, threads), acts).pcs| && Trace(Start(n, threads), acts).pcs[t].GetExit?
    ensures var s := Trace(Start(n, threads), acts);
            var es := Events(Start(n, threads), acts);
            var x := s.pcs[t].x;
            && LegalRun(Filled(n), es)
            && x in s.bodies
            && Clean(s.bodies[x])
            && s.bodies[x] == Reset(LeftBehind(Filled(n), es, x))
            && (s.bodies[x] == FRESH <==> Idle(LeftBehind(Filled(n), es, x)))
  {
    var s, es := Trace(Start(n, threads), acts), Events(Start(n, threads), acts);
    Refinement(n, threads, acts);
    ReturnsJustGot(n, threads, acts, t);
    JustGotIsClean(n, es, s.pcs[t].x);
    SameBodies(s, Run(Filled(n), es), t);
  }

  lemma SameBodies(s: State, p: Pool, t: ThreadId)
    requires Refines(s, p) && t < |s.pcs| && s.pcs[t].GetExit?
    ensures s.bodies == p.bodies
  {
    assert Holder(s) == s.pcs[t];
  }

  // ----- progress -----

  /** An upper bound on the micro-steps a call has left. */
  function Rank(pc: Pc): nat {
    match pc
    case GetWait => 6
    case GetTest => 5
    case GetGrow => 4
    case GetTop(_) => 3
    case GetPop(_, _) => 2
    case GetExit(_) => 1
    case PutWait(_) => 6
    case PutInit(_) => 5
    case PutWrite(_) => 4
    case PutSocket(_) => 3
    case PutPush(_) => 2
    case PutExit(_) => 1
    case Outside => 0
    case Broken => 0
  }

  function Remaining(pcs: seq<Pc>): nat {
    if pcs == [] then 0 else Rank(pcs[0]) + Remaining(pcs[1..])
  }

  lemma {:induction false} RemainingUpdate(pcs: seq<Pc>, t: nat, pc: Pc)
    requires t < |pcs|
    ensures Remaining(pcs[t := pc]) == Remaining(pcs) - Rank(pcs[t]) + Rank(pc)
  {
    if t == 0 {
      assert pcs[t := pc][1..] == pcs[1..];
    } else {
      assert pcs[t := pc][1..] == pcs[1..][t - 1 := pc];
      RemainingUpdate(pcs[1..], t - 1, pc);
    }
  }

  /** While any call is under way, some thread can take a micro-step. */
  lemma NoDeadlock(n: nat, threads: nat, acts: seq<Action>, pending: ThreadId) returns (t: ThreadId)
    requires LegalTrace(Start(n, threads), acts)
    requires pending < |Trace(Start(n, threads), acts).pcs|
    requires !Trace(Start(n, threads), acts).pcs[pending].Outside?
    ensures Enabled(Trace(Start(n, threads), acts), Micro(t))
  {
    Refinement(n, threads, acts);
    var s := Trace(Start(n, threads), acts);
    t := if s.lock.By? then s.lock.t else pending;
    StackSafety(n, threads, acts, t);
  }

  /** Every micro-step brings the calls under way nearer to their end, and what holders do meanwhile does not. */
  lemma Progress(s: State, a: Action)
    requires Enabled(s, a) && !a.CallGet? && !a.CallPut?
    ensures if a.Micro? then Remaining(Next(s, a).pcs) < Remaining(s.pcs)
            else Remaining(Next(s, a).pcs) == Remaining(s.pcs)
  {
    if a.Micro? {
      var pc := Next(s, a).pcs[a.t];
      assert Next(s, a).pcs == s.pcs[a.t := pc];
      RemainingUpdate(s.pcs, a.t, pc);
    }
  }

  function MicroSteps(acts: seq<Action>): nat {
    if acts == [] then 0
    else MicroSteps(acts[..|acts| - 1]) + if acts[|acts| - 1].Micro? then 1 else 0
  }

  /** With no new calls, every call under way is over after a bounded number of micro-steps. */
  lemma {:induction false} CallsComplete(s: State, acts: seq<Action>)
    requires LegalTrace(s, acts)
    requires forall i :: 0 <= i < |acts| ==> !acts[i].CallGet? && !acts[i].CallPut?
    ensures MicroSteps(acts) + Remaining(Trace(s, acts).pcs) <= Remaining(s.pcs)
  {
    if acts != [] {
      CallsComplete(s, acts[..|acts| - 1]);
      Progress(Trace(s, acts[..|acts| - 1]), acts[|acts| - 1]);
    }
  }
}
