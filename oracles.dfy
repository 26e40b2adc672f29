/**
 * An external service seen from the program: every call is logged, and the
 * reply is an arbitrary function of the call's position and its request.
 * Replies may therefore differ between two identical requests (a model that
 * is pulled between two embedding calls, a database that comes up late).
 */
module Oracles {

  class Oracle<Q, A> {
    /** The service's behaviour: the reply to the n-th call (from 0) with request q. */
    const respond: (nat, Q) -> A
    /** Every request made so far, in order. */
    var asked: seq<Q>

    constructor (respond: (nat, Q) -> A)
      ensures this.respond == respond && asked == []
    {
      this.respond := respond;
      asked := [];
    }

    /** The reply the next call with request `q` would get. */
    function Next(q: Q): A
      reads this
    {
      respond(|asked|, q)
    }

    method Ask(q: Q) returns (a: A)
      modifies this
      ensures asked == old(asked) + [q]
      ensures a == old(Next(q))
    {
      a := respond(|asked|, q);
      asked := asked + [q];
    }
  }
}
