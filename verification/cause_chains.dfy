/**
 Properties of `_massage` and of the cause chains the constructors build:
 what `getCause()` reaches when it is followed to the end, and what survives
 when a failure is caught and rethrown through any number of wrapping
 MongoExceptions.
 */
module CauseChains {
  import opened Optional
  import opened MongoErrors

  /** The throwables `getCause()` visits from `t` on, `t` first. */
  function CauseChain(t: Option<Throwable>): (chain: seq<Throwable>)
    ensures t.None? <==> chain == []
    ensures t.Some? ==> chain[0] == t.value
    ensures forall i :: 0 <= i < |chain| - 1 ==> GetCause(chain[i]) == Some(chain[i + 1])
    ensures chain != [] ==> GetCause(chain[|chain| - 1]).None?
    decreases t
  {
    match t
    case None => []
    case Some(IOFailure(_)) => [t.value]
    case Some(Foreign(_, _, c)) => [t.value] + CauseChain(c)
    case Some(Mongo(e)) => [t.value] + CauseChain(e.cause)
  }

  /** The innermost cause: the throwable reached when `getCause()` returns null. */
  function RootCause(t: Option<Throwable>): (r: Option<Throwable>)
    ensures r.None? <==> t.None?
    ensures r.Some? ==> GetCause(r.value).None?
    decreases t
  {
    match t
    case None => None
    case Some(IOFailure(_)) => t
    case Some(Foreign(_, _, c)) => if c.None? then t else RootCause(c)
    case Some(Mongo(e)) => if e.cause.None? then t else RootCause(e.cause)
  }

  /** The root cause is the last link of the cause chain. */
  lemma {:induction false} RootCauseEndsChain(t: Option<Throwable>)
    requires t.Some?
    ensures RootCause(t) == Some(CauseChain(t)[|CauseChain(t)| - 1])
    decreases t
  {
    match t.value
    case IOFailure(_) =>
    case Foreign(_, _, c) =>
      if c.Some? {
        RootCauseEndsChain(c);
      }
    case Mongo(e) =>
      if e.cause.Some? {
        RootCauseEndsChain(e.cause);
      }
  }

  /** `_massage` is idempotent. */
  lemma MassageIdempotent(t: Option<Throwable>)
    ensures Massage(Massage(t)) == Massage(t)
  {
  }

  /** `_massage` changes its argument exactly when that argument is a Network exception. */
  lemma MassageFixedPoints(t: Option<Throwable>)
    ensures Massage(t) == t <==> !IsNetwork(t)
  {
  }

  /**
   On a well-formed throwable `_massage` drops exactly the Network link from
   the front of the cause chain: what lies behind it, including the root
   cause, is kept.
   */
  lemma MassageDropsNetworkLink(t: Option<Throwable>)
    requires WellFormed(t)
    ensures WellFormed(Massage(t))
    ensures IsNetwork(t) ==> CauseChain(t) == [t.value] + CauseChain(Massage(t))
    ensures !IsNetwork(t) ==> CauseChain(Massage(t)) == CauseChain(t)
  {
  }

  /**
   The root cause survives `_massage` unless the argument is a Network
   exception built without an I/O failure, whose cause is null: then the
   result is null and the failure leaves no trace.
   */
  lemma MassageKeepsRootCause(t: Option<Throwable>)
    requires WellFormed(t)
    ensures IsNetwork(t) && t.value.error.ioe.None? ==> Massage(t).None?
    ensures !(IsNetwork(t) && t.value.error.ioe.None?) ==> RootCause(Massage(t)) == RootCause(t)
  {
  }

  /** One catch-and-rethrow: the cause-taking MongoException constructors. */
  datatype Layer =
    | WithMessage(msg: string)                  // MongoException(msg, t)
    | WithCodeAndMessage(code: Int32, msg: string)  // MongoException(code, msg, t)

  function Wrap(layer: Layer, t: Option<Throwable>): (e: MongoException) {
    match layer
    case WithMessage(msg) => FromMessageAndCause(msg, t)
    case WithCodeAndMessage(code, msg) => FromCodeMessageAndCause(code, msg, t)
  }

  /** `t` rethrown through `layers`, the innermost handler last and the outermost first. */
  function Rethrow(layers: seq<Layer>, t: Option<Throwable>): (r: Option<Throwable>) {
    if layers == [] then t else Some(Mongo(Wrap(layers[0], Rethrow(layers[1..], t))))
  }

  /** Rethrowing keeps every exception along the chain well formed. */
  lemma {:induction false} RethrowWellFormed(layers: seq<Layer>, t: Option<Throwable>)
    requires WellFormed(t)
    ensures WellFormed(Rethrow(layers, t))
    decreases |layers|
  {
    if layers != [] {
      RethrowWellFormed(layers[1..], t);
    }
  }

  /** One handler puts exactly one plain MongoException in front of the massaged chain. */
  lemma WrapChain(layer: Layer, t: Option<Throwable>)
    ensures CauseChain(Some(Mongo(Wrap(layer, t)))) == [Mongo(Wrap(layer, t))] + CauseChain(Massage(t))
    ensures Wrap(layer, t).Base?
  {
  }

  /** `chain` is `n` plain MongoExceptions followed by `rest`. */
  predicate WrappedBy(chain: seq<Throwable>, n: nat, rest: seq<Throwable>) {
    && |chain| == n + |rest|
    && chain[n..] == rest
    && forall i :: 0 <= i < n ==> chain[i].Mongo? && chain[i].error.Base?
  }

  /** Wrapping an already wrapped failure once more adds one plain MongoException in front. */
  lemma WrapAgain(layer: Layer, inner: Option<Throwable>, n: nat, rest: seq<Throwable>)
    requires inner.Some? && inner.value.Mongo? && inner.value.error.Base?
    requires WrappedBy(CauseChain(inner), n, rest)
    ensures WrappedBy(CauseChain(Some(Mongo(Wrap(layer, inner)))), n + 1, rest)
  {
    WrapChain(layer, inner);
    assert Massage(inner) == inner;
  }

  /** A single handler puts one plain MongoException in front of the massaged chain. */
  lemma WrapOnce(layer: Layer, t: Option<Throwable>)
    ensures WrappedBy(CauseChain(Some(Mongo(Wrap(layer, t)))), 1, CauseChain(Massage(t)))
  {
  }

  /**
   Rethrowing a failure through any non-empty stack of handlers gives one
   plain MongoException per handler, each caused by the next, and behind
   them the cause chain of the massaged original, intact.
   */
  lemma {:induction false} RethrowKeepsCauses(layers: seq<Layer>, t: Option<Throwable>)
    requires layers != []
    ensures WrappedBy(CauseChain(Rethrow(layers, t)), |layers|, CauseChain(Massage(t)))
    ensures Rethrow(layers, t).Some? && Rethrow(layers, t).value.Mongo? && Rethrow(layers, t).value.error.Base?
    decreases |layers|
  {
    var inner := Rethrow(layers[1..], t);
    assert Rethrow(layers, t) == Some(Mongo(Wrap(layers[0], inner)));
    if |layers| == 1 {
      assert inner == t;
      WrapOnce(layers[0], t);
    } else {
      RethrowKeepsCauses(layers[1..], t);
      WrapAgain(layers[0], inner, |layers| - 1, CauseChain(Massage(t)));
    }
    WrapChain(layers[0], inner);
  }

  /** The root cause of a rethrown failure is that of the massaged original, whenever there is one. */
  lemma RethrowKeepsRootCause(layers: seq<Layer>, t: Option<Throwable>)
    requires layers != []
    ensures Massage(t).Some? ==> RootCause(Rethrow(layers, t)) == RootCause(Massage(t))
    ensures Massage(t).None? ==> RootCause(Rethrow(layers, t)) == Some(Mongo(Wrap(layers[|layers| - 1], t)))
  {
  }

  /** Every code the classes assign on their own is negative. */
  lemma ClientAssignedCodesAreNegative(msg: string, t: Option<Throwable>, ioe: Option<IOException>,
                                       io: IOException, cursorId: Int64, address: Option<ServerAddress>)
    ensures GetCode(FromMessage(msg)) < 0
    ensures GetCode(FromMessageAndCause(msg, t)) < 0
    ensures GetCode(NetworkFromMessage(msg, ioe)) < 0
    ensures GetCode(NetworkFromIOException(io)) < 0
    ensures GetCode(NewCursorNotFound(cursorId, address)) < 0
  {
  }
}
