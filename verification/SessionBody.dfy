/** The data of one session, and what Session::Init resets of it. */
module SessionBody {
  import Sending

  datatype Socket = Invalid | Handle(h: nat)

  /**
   * The fields of a session: the two ring buffer positions, the socket, and the send side (the
   * queued messages with their offsets and the flag that says a send is under way).
   */
  datatype Body = Body(read: nat, write: nat, socket: Socket, out: Sending.Outbox)

  /** A session as its constructor leaves it. */
  const FRESH := Body(0, 0, Invalid, Sending.IDLE_OUTBOX)

  /** Session::Init clears the ring buffer and the socket and touches nothing else. */
  function Reset(b: Body): Body {
    b.(read := 0, write := 0, socket := Invalid)
  }

  /** The three stores that Session::Init makes, in its order; together they are Reset. */
  function ClearRead(b: Body): Body {
    b.(read := 0)
  }

  function ClearWrite(b: Body): Body {
    b.(write := 0)
  }

  function ClearSocket(b: Body): Body {
    b.(socket := Invalid)
  }

  /** The send side is at rest: nothing queued, nothing under way. */
  predicate Idle(b: Body) {
    b.out == Sending.IDLE_OUTBOX
  }

  /** The receive side and the socket are as in a new session. */
  predicate Clean(b: Body) {
    b == FRESH.(out := b.out)
  }
}
