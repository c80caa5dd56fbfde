/** One link of an asynchronous chain: handlers deferred until enough of the wrapped
    handlers before it have completed. */
module ChainImpl {

  /** required: the completions still missing; deferred: the handlers to post then. */
  datatype Link = Link(required: nat, deferred: seq<nat>)

  function Post(l: Link, h: nat): Link
  {
    l.(deferred := l.deferred + [h])
  }

  /** run: the deferred handlers are swapped out, to be posted without the lock. */
  function Run(l: Link): (Link, seq<nat>)
  {
    (l.(deferred := []), l.deferred)
  }

  /** complete, up to the release of the lock: the link, and the handlers to post. */
  function Complete(l: Link): (Link, seq<nat>)
  {
    var l' := if l.required > 0 then l.(required := l.required - 1) else l;
    if l'.required > 0 then (l', []) else Run(l')
  }

  class ChainImpl {
    var required: nat
    var deferredHandlers: seq<nat>

    function State(): Link
      reads this
    {
      Link(required, deferredHandlers)
    }

    constructor (required: nat)
      ensures State() == Link(required, [])
    {
      this.required, deferredHandlers := required, [];
    }

    method PostHandler(h: nat)
      modifies this
      ensures State() == Post(old(State()), h)
    {
      deferredHandlers := deferredHandlers + [h];
    }

    /** Under the lock; the caller posts what it returns after releasing it. */
    method RunLocked() returns (handlers: seq<nat>)
      modifies this
      ensures (State(), handlers) == Run(old(State()))
    {
      handlers := [];
      handlers, deferredHandlers := deferredHandlers, handlers;
    }

    method CompleteLocked() returns (handlers: seq<nat>)
      modifies this
      ensures (State(), handlers) == Complete(old(State()))
    {
      // the countdown stops at zero
      if required > 0 {
        required := required - 1;
      }
      // nothing is released while a completion is missing
      if required > 0 {
        return [];
      }
      handlers := RunLocked();
    }
  }
}
