/**
 * The session pool as an allocator whose operations are atomic: a stack of free sessions, a count of
 * the sessions ever constructed, and who holds each session that is out. Sessions are numbered in
 * the order in which they were constructed; the top of the stack is its last element.
 */
module AtomicPool {
  import opened SessionBody
  import Sending

  type SessionId = nat
  type ThreadId = nat

  datatype Pool = Pool(
    stack: seq<SessionId>,
    created: nat,
    holder: map<SessionId, ThreadId>,
    bodies: map<SessionId, Body>)

  /** What happens to the pool and to the sessions that are out. */
  datatype Event =
    | Got(t: ThreadId, x: SessionId)
    | Released(t: ThreadId, x: SessionId)
    | Handed(t: ThreadId, u: ThreadId, x: SessionId)
    | Wrote(t: ThreadId, x: SessionId, b: Body)
    | Touched(t: ThreadId, x: SessionId, out: Sending.Outbox)

  /** The numbers below n, in order and as a set. */
  function UpTo(n: nat): (r: seq<SessionId>)
    ensures |r| == n && forall i :: 0 <= i < n ==> r[i] == i
    ensures forall x: nat :: x in r <==> x < n
  {
    var r := seq(n, i => i);
    assert forall x: nat :: x < n ==> x in r by {
      forall x: nat | x < n
        ensures x in r
      {
        assert r[x] == x;
      }
    }
    r
  }

  function Below(n: nat): (r: set<SessionId>)
    ensures forall x: nat :: x in r <==> x < n
  {
    set x | x in UpTo(n)
  }

  /** The pool that SessionManager::Init fills. */
  function Filled(n: nat): Pool {
    Pool(UpTo(n), n, map[], map x | x in Below(n) :: FRESH)
  }

  /** The session that the next Get hands out. */
  function NextOut(p: Pool): SessionId {
    if p.stack == [] then p.created else p.stack[|p.stack| - 1]
  }

  /**
   * Only the holder of a session writes to it, passes it on or releases it. The send side is the
   * exception: a completion, or a thread late on its way to Send, touches it on any thread at any time,
   * also while the session is pooled.
   */
  predicate Legal(p: Pool, e: Event) {
    match e
    case Got(t, x) => x == NextOut(p)
    case Released(t, x) => x in p.holder && p.holder[x] == t && x in p.bodies
    case Handed(t, u, x) => x in p.holder && p.holder[x] == t
    case Wrote(t, x, b) => x in p.holder && p.holder[x] == t && x in p.bodies
    case Touched(t, x, out) => x in p.bodies
  }

  function Apply(p: Pool, e: Event): Pool
    requires Legal(p, e)
  {
    match e
    case Got(t, x) =>
      if p.stack == []
      then Pool([], p.created + 1, p.holder[x := t], p.bodies[x := FRESH])
      else p.(stack := p.stack[..|p.stack| - 1], holder := p.holder[x := t])
    case Released(t, x) =>
      p.(stack := p.stack + [x], holder := p.holder - {x}, bodies := p.bodies[x := Reset(p.bodies[x])])
    case Handed(t, u, x) => p.(holder := p.holder[x := u])
    case Wrote(t, x, b) => p.(bodies := p.bodies[x := b])
    case Touched(t, x, out) => p.(bodies := p.bodies[x := p.bodies[x].(out := out)])
  }

  predicate LegalRun(p: Pool, es: seq<Event>)
    decreases es, 0
  {
    es == [] ||
    (LegalRun(p, es[..|es| - 1]) && Legal(Run(p, es[..|es| - 1]), es[|es| - 1]))
  }

  function Run(p: Pool, es: seq<Event>): Pool
    requires LegalRun(p, es)
    decreases es, 1
  {
    if es == [] then p else Apply(Run(p, es[..|es| - 1]), es[|es| - 1])
  }

  lemma RunSnoc(p: Pool, es: seq<Event>, e: Event)
    requires LegalRun(p, es)
    ensures LegalRun(p, es + [e]) <==> Legal(Run(p, es), e)
    ensures Legal(Run(p, es), e) ==> Run(p, es + [e]) == Apply(Run(p, es), e)
  {
    assert (es + [e])[..|es + [e]| - 1] == es;
  }

  // ----- the invariant -----

  predicate Distinct(s: seq<SessionId>) {
    forall i, j :: 0 <= i < j < |s| ==> s[i] != s[j]
  }

  /**
   * Every session ever constructed is in exactly one place: once on the stack, or held by one
   * thread. The free ones have been reset.
   */
  ghost predicate Inv(p: Pool) {
    && Distinct(p.stack)
    && (forall x: SessionId :: x in p.stack ==> x !in p.holder)
    && (forall x: SessionId :: x in p.bodies <==> x < p.created)
    && (forall x: SessionId :: x in p.bodies <==> (x in p.stack || x in p.holder))
    && (forall x: SessionId :: x in p.stack && x in p.bodies ==> Clean(p.bodies[x]))
  }

  lemma FilledInv(n: nat)
    ensures Inv(Filled(n))
  {
    FirstNumbers(n);
    assert forall x: SessionId :: x in Filled(n).bodies <==> x in Below(n);
  }

  lemma FirstNumbers(n: nat)
    ensures Distinct(Filled(n).stack)
    ensures forall x: SessionId :: x in Filled(n).stack <==> x < n
  {
    forall x: SessionId | x < n
      ensures x in Filled(n).stack
    {
      assert Filled(n).stack[x] == x;
    }
  }

  lemma ApplyInv(p: Pool, e: Event)
    requires Inv(p) && Legal(p, e)
    ensures Inv(Apply(p, e))
  {
    match e
    case Got(t, x) =>
      if p.stack == [] {
        assert x !in p.bodies;
      } else {
        var rest := p.stack[..|p.stack| - 1];
        assert p.stack == rest + [x];
        assert forall y :: y in p.stack <==> y in rest || y == x;
      }
    case Released(t, x) =>
    case Handed(t, u, x) =>
    case Wrote(t, x, b) =>
    case Touched(t, x, out) =>
  }

  /** Exclusive ownership in every run. */
  lemma {:induction false} RunInv(p: Pool, es: seq<Event>)
    requires Inv(p) && LegalRun(p, es)
    ensures Inv(Run(p, es))
  {
    if es != [] {
      RunInv(p, es[..|es| - 1]);
      ApplyInv(Run(p, es[..|es| - 1]), es[|es| - 1]);
    }
  }

  /** Some Get so far has returned `x`. */
  predicate EverGot(es: seq<Event>, x: SessionId) {
    es != [] && ((es[|es| - 1].Got? && es[|es| - 1].x == x) || EverGot(es[..|es| - 1], x))
  }

  /** The sessions that exist are those that Init pushed and those that a Get has returned. */
  lemma {:induction false} ExistsExactly(n: nat, es: seq<Event>, x: SessionId)
    requires LegalRun(Filled(n), es)
    ensures x in Run(Filled(n), es).bodies <==> x < n || EverGot(es, x)
  {
    FilledInv(n);
    if es != [] {
      ExistsExactly(n, es[..|es| - 1], x);
      RunInv(Filled(n), es[..|es| - 1]);
    }
  }

  // ----- conservation and the allocation bound -----

  function Elements(s: seq<SessionId>): set<SessionId> {
    set x | x in s
  }

  lemma {:induction false} DistinctSize(s: seq<SessionId>)
    requires Distinct(s)
    ensures |Elements(s)| == |s|
  {
    if s != [] {
      var last := s[|s| - 1];
      var init := s[..|s| - 1];
      DistinctSize(init);
      assert s == init + [last];
      assert Elements(s) == Elements(init) + {last};
    }
  }

  lemma {:induction false} BelowSize(n: nat)
    ensures |Below(n)| == n
  {
    if n == 0 {
      assert Below(n) == {};
    } else {
      BelowSize(n - 1);
      assert Below(n) == Below(n - 1) + {n - 1};
    }
  }

  /** Conservation: constructed = pooled + held. */
  lemma Conservation(p: Pool)
    requires Inv(p)
    ensures p.created == |p.stack| + |p.holder|
  {
    DistinctSize(p.stack);
    BelowSize(p.created);
    assert Below(p.created) == Elements(p.stack) + p.holder.Keys;
  }

  /** The largest number of sessions out at once, over all states of the run. */
  function Peak(p: Pool, es: seq<Event>): nat
    requires LegalRun(p, es)
  {
    var now := |Run(p, es).holder|;
    if es == [] then now
    else
      var before := Peak(p, es[..|es| - 1]);
      if before < now then now else before
  }

  lemma ApplyHolders(p: Pool, e: Event)
    requires Inv(p) && Legal(p, e)
    ensures |Apply(p, e).holder|
         == |p.holder| + (if e.Got? then 1 else 0) - (if e.Released? then 1 else 0)
    ensures Apply(p, e).created
         == p.created + (if e.Got? && p.stack == [] then 1 else 0)
  {
    ApplyInv(p, e);
    Conservation(p);
    Conservation(Apply(p, e));
    if e.Handed? {
      assert Apply(p, e).holder.Keys == p.holder.Keys;
    }
  }

  function Max(a: int, b: int): int {
    if a < b then b else a
  }

  /**
   * Exact allocation bound: no session is constructed that peak demand did not need. The number ever
   * constructed is the initial size or the peak number out at once, whichever is larger.
   */
  lemma {:induction false} AllocationBound(n: nat, es: seq<Event>)
    requires LegalRun(Filled(n), es)
    ensures Run(Filled(n), es).created == Max(n, Peak(Filled(n), es))
  {
    if es != [] {
      var init := es[..|es| - 1];
      AllocationBound(n, init);
      FilledInv(n);
      RunInv(Filled(n), init);
      Conservation(Run(Filled(n), init));
      ApplyHolders(Run(Filled(n), init), es[|es| - 1]);
      PeakBounds(Filled(n), init);
    }
  }

  lemma PeakBounds(p: Pool, es: seq<Event>)
    requires LegalRun(p, es)
    ensures Peak(p, es) >= |Run(p, es).holder|
  {
  }

  // ----- the shape of the stack -----

  /**
   * Untouched bottom: while at most k sessions are out beyond those out at the start, with k no more
   * than the s sessions pooled then, the bottom s - k entries stay as they are and no session is
   * constructed.
   */
  lemma {:induction false} UntouchedBottom(p: Pool, es: seq<Event>, k: nat)
    requires Inv(p) && LegalRun(p, es) && k <= |p.stack|
    requires Peak(p, es) <= |p.holder| + k
    ensures p.stack[..|p.stack| - k] <= Run(p, es).stack
    ensures Run(p, es).created == p.created
  {
    if es != [] {
      var init := es[..|es| - 1];
      UntouchedBottom(p, init, k);
      PeakBounds(p, es);
      var q, e := Run(p, init), es[|es| - 1];
      RunInv(p, init);
      Conservation(p);
      Conservation(q);
      ApplyHolders(q, e);
    }
  }

  /** One release by its holder for each session in `order`. */
  function Drain(p: Pool, order: seq<SessionId>): seq<Event>
    requires forall x :: x in order ==> x in p.holder
  {
    seq(|order|, i requires 0 <= i < |order| => Released(p.holder[order[i]], order[i]))
  }

  /** What the pool is once the sessions in `order` are back. */
  ghost predicate Drained(p: Pool, order: seq<SessionId>, q: Pool) {
    && q.stack == p.stack + order
    && q.holder == p.holder - Elements(order)
    && q.created == p.created
    && q.bodies.Keys == p.bodies.Keys
  }

  lemma DrainStep(p: Pool, init: seq<SessionId>, last: SessionId, q: Pool)
    requires Inv(p) && Distinct(init + [last]) && last in p.holder && last !in init
    requires Drained(p, init, q)
    ensures Legal(q, Released(p.holder[last], last))
    ensures Drained(p, init + [last], Apply(q, Released(p.holder[last], last)))
  {
    assert Elements(init + [last]) == Elements(init) + {last};
    assert p.holder - Elements(init + [last]) == (p.holder - Elements(init)) - {last};
    assert p.stack + (init + [last]) == (p.stack + init) + [last];
    assert last in q.bodies.Keys;
  }

  lemma {:induction false} DrainRun(p: Pool, order: seq<SessionId>)
    requires Inv(p) && Distinct(order)
    requires forall x :: x in order ==> x in p.holder
    ensures LegalRun(p, Drain(p, order))
    ensures Drained(p, order, Run(p, Drain(p, order)))
  {
    if order == [] {
      assert p.holder - Elements(order) == p.holder;
    } else {
      var init, last := order[..|order| - 1], order[|order| - 1];
      assert order == init + [last];
      DrainRun(p, init);
      assert Drain(p, order) == Drain(p, init) + [Released(p.holder[last], last)];
      RunSnoc(p, Drain(p, init), Released(p.holder[last], last));
      DrainStep(p, init, last, Run(p, Drain(p, init)));
    }
  }

  /**
   * Drain: releasing everything that is out, in any order, leaves a pool that holds every session
   * ever constructed exactly once.
   */
  lemma DrainIsPermutation(p: Pool, order: seq<SessionId>)
    requires Inv(p) && Distinct(order) && Elements(order) == p.holder.Keys
    requires forall x :: x in order ==> x in p.holder
    ensures LegalRun(p, Drain(p, order))
    ensures var q := Run(p, Drain(p, order));
            && q.stack == p.stack + order
            && q.holder == map[]
            && multiset(q.stack) == multiset(Below(p.created))
  {
    DrainRun(p, order);
    var q := Run(p, Drain(p, order));
    RunInv(p, Drain(p, order));
    assert q.holder.Keys == {};
    AllPooled(q);
  }

  lemma AllPooled(q: Pool)
    requires Inv(q) && q.holder == map[]
    ensures multiset(q.stack) == multiset(Below(q.created))
  {
    DistinctMultiset(q.stack);
    assert Elements(q.stack) == Below(q.created);
  }

  lemma {:induction false} DistinctMultiset(s: seq<SessionId>)
    requires Distinct(s)
    ensures multiset(s) == multiset(Elements(s))
  {
    if s != [] {
      var init, last := s[..|s| - 1], s[|s| - 1];
      DistinctMultiset(init);
      assert s == init + [last];
      assert Elements(s) == Elements(init) + {last};
    }
  }

  // ----- nested use -----

  /** Properly nested use by one thread: get a session, use more inside, give it back, carry on. */
  datatype Nest = Done | Bracket(inner: Nest, rest: Nest)

  function Depth(n: Nest): nat {
    match n
    case Done => 0
    case Bracket(inner, rest) => Max(1 + Depth(inner), Depth(rest))
  }

  /** The part of the pool that nested use changes. */
  datatype Shape = Shape(stack: seq<SessionId>, created: nat)

  function ShapeOf(p: Pool): Shape {
    Shape(p.stack, p.created)
  }

  function Top(s: Shape): SessionId {
    if s.stack == [] then s.created else s.stack[|s.stack| - 1]
  }

  function Taken(s: Shape): Shape {
    if s.stack == [] then Shape([], s.created + 1) else s.(stack := s.stack[..|s.stack| - 1])
  }

  /** Nested use on shapes. */
  function Nested(s: Shape, n: Nest): Shape
    decreases n
  {
    match n
    case Done => s
    case Bracket(inner, rest) =>
      var back := Nested(Taken(s), inner);
      Nested(back.(stack := back.stack + [Top(s)]), rest)
  }

  function Take(p: Pool, t: ThreadId): (q: Pool)
    requires Inv(p)
    ensures Inv(q) && ShapeOf(q) == Taken(ShapeOf(p))
    ensures NextOut(p) !in p.holder && q.holder == p.holder[NextOut(p) := t]
  {
    ApplyInv(p, Got(t, NextOut(p)));
    NextOutIsFree(p);
    Apply(p, Got(t, NextOut(p)))
  }

  function Give(p: Pool, t: ThreadId, x: SessionId): (q: Pool)
    requires Inv(p) && x in p.holder && p.holder[x] == t
    ensures Inv(q) && q.stack == p.stack + [x] && q.created == p.created && q.holder == p.holder - {x}
    ensures Legal(p, Released(t, x)) && q == Apply(p, Released(t, x))
  {
    ApplyInv(p, Released(t, x));
    Apply(p, Released(t, x))
  }

  /** The pool after the nested use `n` by thread `t`, started on pool `p`. */
  function Settle(p: Pool, t: ThreadId, n: Nest): (q: Pool)
    requires Inv(p)
    ensures Inv(q) && q.holder == p.holder && ShapeOf(q) == Nested(ShapeOf(p), n)
    decreases n
  {
    match n
    case Done => p
    case Bracket(inner, rest) =>
      var x := NextOut(p);
      var back := Settle(Take(p, t), t, inner);
      assert p.holder[x := t] - {x} == p.holder;
      Settle(Give(back, t, x), t, rest)
  }

  lemma NextOutIsFree(p: Pool)
    requires Inv(p)
    ensures NextOut(p) !in p.holder
  {
    assert p.stack == [] ==> p.created !in p.bodies;
  }

  /** The events of that use. */
  function Play(p: Pool, t: ThreadId, n: Nest): (es: seq<Event>)
    requires Inv(p)
    ensures LegalRun(p, es) && Run(p, es) == Settle(p, t, n)
    decreases n
  {
    match n
    case Done => []
    case Bracket(inner, rest) =>
      var x := NextOut(p);
      var got := Take(p, t);
      var back := Settle(got, t, inner);
      var given := Give(back, t, x);
      var es1, es2 := Play(got, t, inner), Play(given, t, rest);
      BracketRun(p, t, es1, es2);
      [Got(t, x)] + es1 + [Released(t, x)] + es2
  }

  lemma {:induction false} RunAppend(p: Pool, a: seq<Event>, b: seq<Event>)
    requires LegalRun(p, a) && LegalRun(Run(p, a), b)
    ensures LegalRun(p, a + b) && Run(p, a + b) == Run(Run(p, a), b)
  {
    if b == [] {
      assert a + b == a;
    } else {
      var init, last := b[..|b| - 1], b[|b| - 1];
      RunAppend(p, a, init);
      assert a + b == (a + init) + [last];
      RunSnoc(p, a + init, last);
    }
  }

  lemma BracketRun(p: Pool, t: ThreadId, es1: seq<Event>, es2: seq<Event>)
    requires var x := NextOut(p);
             var got := Apply(p, Got(t, x));
             && LegalRun(got, es1) && Legal(Run(got, es1), Released(t, x))
             && LegalRun(Apply(Run(got, es1), Released(t, x)), es2)
    ensures var x := NextOut(p);
            var got := Apply(p, Got(t, x));
            var es := [Got(t, x)] + es1 + [Released(t, x)] + es2;
            LegalRun(p, es) && Run(p, es) == Run(Apply(Run(got, es1), Released(t, x)), es2)
  {
    var x := NextOut(p);
    var get, put := [Got(t, x)], [Released(t, x)];
    RunSnoc(p, [], Got(t, x));
    assert [] + get == get;
    RunAppend(p, get, es1);
    RunSnoc(p, get + es1, Released(t, x));
    RunAppend(p, get + es1 + put, es2);
  }

  /** The sessions constructed between two counts, newest first. */
  function NewestFirst(before: nat, after: nat): seq<SessionId>
    requires before <= after
  {
    seq(after - before, i requires 0 <= i < after - before => after - 1 - i)
  }

  lemma NewestFirstJoin(a: nat, b: nat, c: nat)
    requires a <= b <= c
    ensures NewestFirst(b, c) + NewestFirst(a, b) == NewestFirst(a, c)
  {
  }

  /** From `s` to `q`, nested use to depth `d` constructed what it lacked and slid it under the stack. */
  predicate SlidUnder(s: Shape, d: nat, q: Shape) {
    && q.created == s.created + Max(0, d - |s.stack|)
    && q.stack == NewestFirst(s.created, q.created) + s.stack
  }

  /**
   * Nested use puts everything back where it was, on top of exactly the sessions it had to construct:
   * as many as the nesting is deeper than the pool, the newest at the very bottom.
   */
  lemma {:induction false} NestedUse(p: Pool, t: ThreadId, n: Nest)
    requires Inv(p)
    ensures LegalRun(p, Play(p, t, n))
    ensures SlidUnder(ShapeOf(p), Depth(n), ShapeOf(Run(p, Play(p, t, n))))
    ensures Run(p, Play(p, t, n)).holder == p.holder
  {
    var q := Settle(p, t, n);
    assert Run(p, Play(p, t, n)) == q;
    NestedSlides(ShapeOf(p), n);
  }

  lemma {:induction false} NestedSlides(s: Shape, n: Nest)
    ensures SlidUnder(s, Depth(n), Nested(s, n))
    decreases n
  {
    match n
    case Done =>
      assert NewestFirst(s.created, s.created) == [];
    case Bracket(inner, rest) =>
      var back := Nested(Taken(s), inner);
      var given := back.(stack := back.stack + [Top(s)]);
      NestedSlides(Taken(s), inner);
      NestedSlides(given, rest);
      BracketShape(s, Depth(inner), back);
      SlidUnderJoin(s, 1 + Depth(inner), given, Depth(rest), Nested(given, rest));
  }

  /** One bracket: what the inner use constructed slides under the old stack. */
  lemma BracketShape(s: Shape, d: nat, back: Shape)
    requires SlidUnder(Taken(s), d, back)
    ensures SlidUnder(s, 1 + d, back.(stack := back.stack + [Top(s)]))
  {
    if s.stack == [] {
      assert NewestFirst(s.created, s.created + 1) == [s.created];
      NewestFirstJoin(s.created, s.created + 1, back.created);
    } else {
      assert s.stack == s.stack[..|s.stack| - 1] + [Top(s)];
    }
  }

  lemma SlidUnderJoin(s: Shape, d: nat, given: Shape, e: nat, q: Shape)
    requires SlidUnder(s, d, given) && SlidUnder(given, e, q)
    ensures SlidUnder(s, Max(d, e), q)
  {
    NewestFirstJoin(s.created, given.created, q.created);
  }

  // ----- what a handed out session contains -----

  /**
   * The contents of `x` at its last release in the run, or of a new session if there was none, with the
   * send side as it was touched since.
   */
  function LeftBehind(p: Pool, es: seq<Event>, x: SessionId): Body
    requires LegalRun(p, es)
  {
    if es == [] then FRESH
    else
      var init, last := es[..|es| - 1], es[|es| - 1];
      if last.x == x && last.Released? then Run(p, init).bodies[x]
      else if last.x == x && last.Touched? then LeftBehind(p, init, x).(out := last.out)
      else LeftBehind(p, init, x)
  }

  lemma {:induction false} PooledContents(n: nat, es: seq<Event>, x: SessionId)
    requires LegalRun(Filled(n), es)
    requires x !in Run(Filled(n), es).holder
    ensures x in Run(Filled(n), es).bodies ==>
              Run(Filled(n), es).bodies[x] == Reset(LeftBehind(Filled(n), es, x))
    ensures x !in Run(Filled(n), es).bodies ==> LeftBehind(Filled(n), es, x) == FRESH
  {
    if es != [] {
      var init, e := es[..|es| - 1], es[|es| - 1];
      FilledInv(n);
      RunInv(Filled(n), init);
      if !(e.Released? && e.x == x) {
        PooledContents(n, init, x);
      }
    }
  }

  /**
   * Clean handout: whatever holders did, a session handed out has a cleared receive side and no
   * socket. Its send side is whatever was left behind, because Session::Init does not reset the send
   * queue or the sending flag; so it is as good as new exactly when that is idle.
   */
  lemma CleanHandout(n: nat, es: seq<Event>, t: ThreadId)
    requires LegalRun(Filled(n), es)
    ensures var p := Run(Filled(n), es);
            var x := NextOut(p);
            var q := Apply(p, Got(t, x));
            && x in q.bodies
            && Clean(q.bodies[x])
            && q.bodies[x] == Reset(LeftBehind(Filled(n), es, x))
            && (q.bodies[x] == FRESH <==> Idle(LeftBehind(Filled(n), es, x)))
  {
    FilledInv(n);
    RunInv(Filled(n), es);
    PooledContents(n, es, NextOut(Run(Filled(n), es)));
  }

  /** Since it was handed out nothing has happened to `x`, except to its send side. */
  predicate JustGot(es: seq<Event>, x: SessionId) {
    es != [] &&
    var last := es[|es| - 1];
    if last.x == x && !last.Touched? then last.Got? else JustGot(es[..|es| - 1], x)
  }

  /** Until its holder writes to it, a session is as it was handed out. */
  lemma {:induction false} JustGotIsClean(n: nat, es: seq<Event>, x: SessionId)
    requires LegalRun(Filled(n), es) && JustGot(es, x)
    ensures var p := Run(Filled(n), es);
            && x in p.bodies
            && Clean(p.bodies[x])
            && p.bodies[x] == Reset(LeftBehind(Filled(n), es, x))
            && (p.bodies[x] == FRESH <==> Idle(LeftBehind(Filled(n), es, x)))
  {
    var init, last := es[..|es| - 1], es[|es| - 1];
    if last.x == x && last.Got? {
      CleanHandout(n, init, last.t);
    } else {
      JustGotIsClean(n, init, x);
    }
  }

  /** A run after which a session is handed out that still carries its last holder's message. */
  lemma StaleHandout() returns (es: seq<Event>)
    ensures LegalRun(Filled(1), es)
    ensures var p := Run(Filled(1), es);
            && NextOut(p) == 0 && 0 in p.bodies
            && p.bodies[0].out == Sending.Outbox([Sending.Item([7], 0)], true)
  {
    var p := Filled(1);
    var stale := FRESH.(out := Sending.Outbox([Sending.Item([7], 0)], true));
    var got, wrote, put := Got(0, 0), Wrote(0, 0, stale), Released(0, 0);
    RunSnoc(p, [], got);
    assert 0 in p.bodies by { assert 0 in Below(1); }
    RunSnoc(p, [] + [got], wrote);
    RunSnoc(p, [] + [got] + [wrote], put);
    es := [] + [got] + [wrote] + [put];
  }
}
