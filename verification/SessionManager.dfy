/**
 * The session pool as the class of the source: a stack of sessions that Init fills, GetEmptySession
 * pops and Release pushes. Each method is the body of one critical section; what happens when many
 * threads run them is the subject of ConcurrentPool.
 */
module SessionManager {
  import opened SessionBody
  import opened AtomicPool
  import Sending

  class Session {
    var read: nat
    var write: nat
    var socket: Socket
    var queue: seq<Sending.Item>
    var sending: bool

    ghost function Data(): Body
      reads this
    {
      Body(read, write, socket, Sending.Outbox(queue, sending))
    }

    constructor ()
      ensures Data() == FRESH
    {
      queue, sending := [], false;
      new;
      Init();
    }

    /** Clears the ring buffer and forgets the socket. */
    method Init()
      modifies this`read, this`write, this`socket
      ensures Data() == Reset(old(Data()))
    {
      read, write := 0, 0;
      socket := Invalid;
    }
  }

  const MAX_SESSION_SIZE: nat := 1000

  /** One more session constructed and pushed. */
  function Emplaced(p: Pool): Pool {
    p.(stack := p.stack + [p.created], created := p.created + 1, bodies := p.bodies[p.created := FRESH])
  }

  /** The pool after `n` more sessions were constructed and pushed. */
  function FilledUp(p: Pool, n: nat): Pool
    decreases n
  {
    if n == 0 then p else Emplaced(FilledUp(p, n - 1))
  }

  /** Filling an empty pool gives the starting point of AtomicPool's runs. */
  lemma {:induction false} FillEmpty(n: nat)
    ensures FilledUp(Filled(0), n) == Filled(n)
  {
    if n > 0 {
      FillEmpty(n - 1);
      FilledNext(n - 1);
    }
  }

  lemma FilledNext(n: nat)
    ensures Emplaced(Filled(n)) == Filled(n + 1)
  {
    assert UpTo(n) + [n] == UpTo(n + 1);
    assert Filled(n).bodies[n := FRESH] == Filled(n + 1).bodies;
  }

  /** After Init of an empty pool a thousand Gets construct nothing, and each further one constructs a session. */
  lemma {:induction false} FirstThousand(es: seq<Event>)
    requires LegalRun(Filled(MAX_SESSION_SIZE), es) && forall i :: 0 <= i < |es| ==> es[i].Got?
    ensures Run(Filled(MAX_SESSION_SIZE), es).created == Max(1000, |es|)
    ensures |Run(Filled(MAX_SESSION_SIZE), es).stack| == Max(1000, |es|) - |es|
  {
    if es != [] {
      FirstThousand(es[..|es| - 1]);
    }
  }

  /** A pool that is not empty after its top was handed out to the one caller. */
  function Popped(p: Pool): Pool
    requires p.stack != []
  {
    p.(stack := p.stack[..|p.stack| - 1], holder := p.holder[NextOut(p) := 0])
  }

  /** Constructing a session when there is none and then popping is the atomic Get. */
  lemma PopIsGot(p: Pool)
    requires Inv(p)
    ensures var full := if p.stack == [] then Emplaced(p) else p;
            && full.stack != []
            && NextOut(full) == NextOut(p)
            && Popped(full) == Apply(p, Got(0, NextOut(p)))
            && Inv(Popped(full))
  {
    ApplyInv(p, Got(0, NextOut(p)));
  }

  class SessionManager {
    var pool: seq<Session>          // the top of the stack is last
    ghost var made: seq<Session>    // every session ever constructed, in order
    ghost var model: Pool           // the atomic allocator this pool implements, one holder

    ghost predicate Valid()
      reads this, pool
    {
      && Inv(model)
      && |made| == model.created
      && (forall i, j :: 0 <= i < j < |made| ==> made[i] != made[j])
      && |pool| == |model.stack|
      && (forall i :: 0 <= i < |pool| ==>
            && model.stack[i] < |made|
            && pool[i] == made[model.stack[i]]
            && model.stack[i] in model.bodies
            && pool[i].Data() == model.bodies[model.stack[i]])
    }

    constructor ()
      ensures Valid() && model == Filled(0) && pool == [] && made == []
    {
      pool, made, model := [], [], Filled(0);
      new;
      FilledInv(0);
    }

    /** Constructs and pushes the initial sessions. */
    method Init()
      requires Valid()
      modifies this
      ensures Valid() && model == FilledUp(old(model), MAX_SESSION_SIZE)
      ensures old(model) == Filled(0) ==> model == Filled(MAX_SESSION_SIZE)
      ensures |pool| == old(|pool|) + 1000 && old(pool) <= pool
      ensures forall i :: old(|pool|) <= i < |pool| ==> fresh(pool[i])
    {
      ghost var p := model;
      for i := 0 to MAX_SESSION_SIZE
        invariant Valid() && model == FilledUp(p, i)
        invariant |pool| == old(|pool|) + i && old(pool) <= pool
        invariant forall k :: old(|pool|) <= k < |pool| ==> fresh(pool[k])
      {
        var _ := Emplace();
      }
      FillEmpty(MAX_SESSION_SIZE);
    }

    /** `m_SessionPool.emplace(new Session())` */
    method Emplace() returns (s: Session)
      requires Valid()
      modifies this
      ensures Valid()
      ensures fresh(s) && s.Data() == FRESH
      ensures pool == old(pool) + [s] && made == old(made) + [s]
      ensures model == Emplaced(old(model))
    {
      s := new Session();
      assert s !in made && s !in pool;
      pool := pool + [s];
      made := made + [s];
      assert model.created !in model.bodies;
      model := Emplaced(model);
    }

    /** Hands out the top of the stack, constructing a session first when the stack is empty. */
    method GetEmptySession() returns (s: Session, ghost x: SessionId)
      requires Valid()
      modifies this
      ensures Valid()
      ensures x == NextOut(old(model)) && model == Apply(old(model), Got(0, x))
      ensures x < |made| && made[x] == s && old(made) <= made
      ensures if old(pool) == [] then fresh(s) && pool == [] && made == old(made) + [s]
              else s == old(pool)[old(|pool|) - 1] && pool == old(pool)[..old(|pool|) - 1] && made == old(made)
      ensures Clean(s.Data())
    {
      PopIsGot(model);
      if |pool| == 0 {
        var added := Emplace();
        s, x := Pop();
        assert s == added && pool == [];
      } else {
        s, x := Pop();
      }
    }

    /** `m_SessionPool.top()` and `m_SessionPool.pop()` */
    method Pop() returns (s: Session, ghost x: SessionId)
      requires Valid() && pool != [] && Inv(Popped(model))
      modifies this
      ensures Valid()
      ensures pool == old(pool)[..old(|pool|) - 1] && s == old(pool)[old(|pool|) - 1] && made == old(made)
      ensures x == NextOut(old(model)) < |made| && made[x] == s && model == Popped(old(model))
      ensures Clean(s.Data())
    {
      s := pool[|pool| - 1];
      x := NextOut(model);
      pool := pool[..|pool| - 1];
      model := Popped(model);
    }

    /** Resets a session that the caller holds and pushes it. */
    method Release(s: Session, ghost x: SessionId)
      requires Valid()
      requires x < |made| && made[x] == s && x in model.holder && model.holder[x] == 0
      modifies this, s`read, s`write, s`socket
      ensures Valid()
      ensures made == old(made) && pool == old(pool) + [s]
      ensures s.Data() == Reset(old(s.Data()))
      ensures var wrote := Wrote(0, x, old(s.Data()));
              && Legal(old(model), wrote)
              && Legal(Apply(old(model), wrote), Released(0, x))
              && model == Apply(Apply(old(model), wrote), Released(0, x))
    {
      ghost var wrote := Wrote(0, x, s.Data());
      ApplyInv(model, wrote);
      ApplyInv(Apply(model, wrote), Released(0, x));
      assert s !in pool;
      s.Init();
      pool := pool + [s];
      model := Apply(Apply(model, wrote), Released(0, x));
    }
  }
}
