# MongoException error taxonomy

A Dafny model of the error taxonomy of the MongoDB Java driver
(`org.mongodb.MongoException`). A Mongo exception carries a signed 32-bit code, a
message and an optional cause. The classes fix four codes themselves, all
negative (-2, -3, -4 and -5). The other constructors pass the caller's code
through unchanged, whatever its sign. By the driver's convention that code is
the server's. Three subclasses specialise it:

- `Network`: a transport failure that wraps an `IOException`.
- `DuplicateKey`: the server rejected a write because a unique key already exists.
- `CursorNotFound`: a batch fetch named a cursor id the server no longer knows.
  It keeps that id and the server's address.

Files:

- `optional.dfy` (`Optional`): a nullable Java reference, as `Option`.
- `text.dfy` (`Text`): how Java renders a `long` in decimal, the inverse
  parse, and the first space-free token of a string. These are used to show that
  the CursorNotFound message names its cursor id.
- `mongo_exception.dfy` (`MongoErrors`): the model.
  - `Throwable` has three kinds: an I/O failure (a leaf), a foreign throwable with
    its own cause, and a Mongo exception.
  - `MongoException` has four variants: `Base`, `Network(ioe)`, `DuplicateKey` and
    `CursorNotFound(cursorId, serverAddress)`.
  - Each Java constructor is a pure function. A subclass constructor first builds
    its superclass part, as `super(...)` does.
  - `_massage` is `Massage`. `ClassInvariant`/`WellFormed` state what every
    constructed exception satisfies.
- `cause_chains.dfy` (`CauseChains`):
  - the `getCause()` chain and the root cause;
  - the laws of `_massage`;
  - what survives when a failure is caught and rethrown through any stack of
    cause-taking constructors (`Rethrow`).

Java `null` is modelled where it changes behaviour, with two exceptions listed
under "## Left out" (null messages, and the exception thrown by `Network(null)`).
These are modelled as `None`:

- a null cause;
- a null `IOException` passed to `Network(msg, ioe)`;
- a null `ServerAddress` passed to `CursorNotFound`. Its message then ends in
  "null", as Java string concatenation renders it.

`_massage(null)` is null.

One consequence the model makes visible is in `MassageKeepsRootCause`. A
`Network` built as `Network(msg, null)` has a null `_ioe`. Wrapping it with
`MongoException(msg, t)` leaves the wrapper with a null cause, so the network
failure leaves no trace in the chain. This is what the code does. It is not
listed as a defect, because nothing in the source says such a Network should be
constructed.

## Model

| member | source | states |
|---|---|---|
| MongoErrors.FromMessage | src/main/org/mongodb/MongoException.java:32-35 | `MongoException(msg)` is a plain exception with code -3, the given message and no cause, and satisfies the class invariant |
| MongoErrors.FromCodeAndMessage | src/main/org/mongodb/MongoException.java:41-44 | `MongoException(code, msg)` reports the caller's code unchanged through `getCode`, keeps the message, has no cause |
| MongoErrors.FromMessageAndCause | src/main/org/mongodb/MongoException.java:50-53 | `MongoException(msg, t)` has code -4. Its cause is `t` unless `t` is a Network, in which case the cause is the wrapped I/O failure. The cause is never a Network, and a well-formed `t` gives a well-formed exception |
| MongoErrors.FromCodeMessageAndCause | src/main/org/mongodb/MongoException.java:60-63 | `MongoException(code, msg, t)` keeps the caller's code. Its cause is the massaged `t`, which is never a Network |
| MongoErrors.Massage | src/main/org/mongodb/MongoException.java:81-86 | `_massage` returns the Network's `_ioe` (possibly null) for a Network exception and any other throwable, or null, unchanged. Its result is never a Network |
| MongoErrors.NetworkFromMessage | src/main/org/mongodb/MongoException.java:99-102 | `Network(msg, ioe)` has code -2 and message `msg`. Both its cause and its `_ioe` are `ioe`, because massaging an IOException changes nothing |
| MongoErrors.NetworkFromIOException | src/main/org/mongodb/MongoException.java:107-110 | `Network(ioe)` has code -4, not -2. Its message is `ioe.toString()`, and its cause and `_ioe` are both `ioe` |
| MongoErrors.IOExceptionText | src/main/org/mongodb/MongoException.java:108 | `ioe.toString()` is the class name, followed by ": " and the detail message exactly when there is one |
| MongoErrors.NewDuplicateKey | src/main/org/mongodb/MongoException.java:126-128 | `DuplicateKey(code, msg)` reports the server's code unchanged, keeps the message, has no cause |
| MongoErrors.NewCursorNotFound | src/main/org/mongodb/MongoException.java:145-167 | `CursorNotFound(id, addr)` has code -5 and no cause. `getCursorId()` returns `id` and `getServerAddress()` returns `addr`, both as given, including a null `addr` |
| MongoErrors.CursorNotFoundMessage | src/main/org/mongodb/MongoException.java:146 | the message starts "cursor ", and the token after that prefix parses back to the cursor id, so the id can be read off the message |
| Text.LongRoundTrip | src/main/org/mongodb/MongoException.java:146 | the decimal text Java concatenates for a `long` parses back to the same number |
| CauseChains.MassageIdempotent | src/main/org/mongodb/MongoException.java:81-86 | massaging twice is the same as massaging once |
| CauseChains.MassageFixedPoints | src/main/org/mongodb/MongoException.java:81-86 | `_massage` leaves its argument unchanged if and only if the argument is not a Network exception |
| CauseChains.MassageDropsNetworkLink | src/main/org/mongodb/MongoException.java:81-112 | On a well-formed throwable, `_massage` removes exactly the leading Network link of the cause chain and keeps the rest. Any other chain is kept whole, and well-formedness is preserved |
| CauseChains.MassageKeepsRootCause | src/main/org/mongodb/MongoException.java:81-112 | `_massage` keeps the root cause, except for a Network built with a null `_ioe`, which massages to null |
| CauseChains.CauseChain | src/main/org/mongodb/MongoException.java:50-63 | the `getCause()` chain starts at the throwable, links each element to its cause, and ends at a throwable with no cause |
| CauseChains.RootCause | src/main/org/mongodb/MongoException.java:50-63 | the root cause exists exactly for a non-null throwable, and it has no cause |
| CauseChains.RootCauseEndsChain | src/main/org/mongodb/MongoException.java:50-63 | the root cause is the last element of the cause chain |
| CauseChains.WrapChain | src/main/org/mongodb/MongoException.java:50-63 | A cause-taking constructor builds a plain MongoException. Its cause chain is that exception followed by the chain of the massaged cause |
| CauseChains.RethrowWellFormed | src/main/org/mongodb/MongoException.java:50-86 | wrapping a well-formed throwable in any number of cause-taking constructors keeps every exception on the chain well formed |
| CauseChains.RethrowKeepsCauses | src/main/org/mongodb/MongoException.java:50-86 | After n wrappings, the chain holds n plain MongoExceptions. The rest of the chain is exactly the chain of the massaged original |
| CauseChains.RethrowKeepsRootCause | src/main/org/mongodb/MongoException.java:50-86 | A rethrown failure keeps the root cause of the massaged original. When that is null, the root is the innermost wrapper |
| MongoErrors.AddressText | src/main/org/mongodb/MongoException.java:146 | the address part of the message is "null" exactly when the address is null |
| MongoErrors.ClassInvariantIsConstructible | src/main/org/mongodb/MongoException.java:32-167 | Every value satisfying the class invariant is the result of one of the constructors, called with its own fields. The invariant checks one level only. Together with `WellFormed` on the cause, and with the constructors' contracts, it describes exactly the constructible exceptions |
| MongoErrors.GetCode | src/main/org/mongodb/MongoException.java:175-177 | `getCode()` returns the stored code. On a constructed exception, a Network reports -2 or -4 and a CursorNotFound reports -5 |
| MongoErrors.GetCursorId | src/main/org/mongodb/MongoException.java:156-158 | `getCursorId()` returns the stored cursor id. On a constructed exception, that is also the id the message names |
| MongoErrors.GetServerAddress | src/main/org/mongodb/MongoException.java:165-167 | `getServerAddress()` returns the stored address, possibly null. On a constructed exception, the message is built from exactly that address |
| CauseChains.ClientAssignedCodesAreNegative | src/main/org/mongodb/MongoException.java:32-167 | every code the classes assign on their own (-2, -3, -4, -5) is negative. The converse does not hold: a caller may pass any code |

## Left out

- Stack traces and `serialVersionUID`: Java runtime machinery with no behaviour here.
- `Throwable.initCause`, inherited through `RuntimeException`: it is not modelled. It can give a cause after construction to an exception built without one (lines 32-35, 41-44, 126-128, 145-146), and that cause may even be a Network. `ClassInvariant` and `WellFormed` therefore describe freshly constructed exceptions only.
- The commented-out constructor from a BSON error document and `parse` (lines 65-78): dead code.
- MongoErrors.NetworkFromIOException: its parameter is a non-null `IOException`. `Network(null)` throws a NullPointerException at `ioe.toString()` (line 108), and the model has no exceptions of its own to raise.
- Null messages: a message is a plain string, so the model does not separate a null `msg` from a string.
- Causes of an `IOException`: an I/O failure is a leaf of the cause chain, which simplifies the chain. A Java `IOException(msg, cause)` does have a `getCause()`, and that would lengthen `CauseChain` and change `RootCause`. The laws of `_massage` do not depend on this simplification. They rest only on `_ioe` being typed `IOException`, which can never be a Network.
- `ServerAddress.toString()`: its source is not part of this model. As a stand-in, the model renders a non-null address as `host:port`. A null one renders as "null", which is what Java string concatenation does. The non-null half of `AddressText`'s contract depends on that stand-in: a rendering with ':' can never be "null".
- `Throwable.toString()` of an `IOException` follows the JDK: class name, then ": " and the detail message when there is one. Localised messages are not modelled.
- The integration test of collections: every test in it needs a live server over the network. Its serializer wraps BSON readers and writers that are not part of this model.
