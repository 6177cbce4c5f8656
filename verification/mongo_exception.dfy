/**
 The driver's error taxonomy: a Mongo exception carries a signed 32-bit code,
 a message and an optional cause. The classes fix four codes themselves, all
 negative; the other constructors pass the caller's code through unchanged
 (by the driver's convention, the server's code). Three specialisations add a
 transport failure (Network), a uniqueness violation (DuplicateKey) and an
 unknown server cursor (CursorNotFound).

 Each Java constructor is a pure function building a value; `_massage` is the
 pure function `Massage` on nullable throwables.
 */
module MongoErrors {
  import opened Optional
  import Text

  /** Java `int`, the width of the error code. */
  type Int32 = x: int | -0x8000_0000 <= x < 0x8000_0000

  /** Java `long`, the width of a server cursor id. */
  type Int64 = x: int | -0x8000_0000_0000_0000 <= x < 0x8000_0000_0000_0000

  /** Codes the client assigns itself. */
  const NetworkCode: Int32 := -2
  const MessageOnlyCode: Int32 := -3
  const WrappedCauseCode: Int32 := -4
  const CursorNotFoundCode: Int32 := -5

  /** A `java.io.IOException`: its class name and its (possibly null) detail message. */
  datatype IOException = IOException(className: string, detail: Option<string>)

  /** A server's host and port, compared by value. */
  datatype ServerAddress = ServerAddress(host: string, port: Int32)

  /** Any throwable the driver may be handed as a cause. */
  datatype Throwable =
    | IOFailure(ioe: IOException)
    | Foreign(className: string, detail: Option<string>, cause: Option<Throwable>)
    | Mongo(error: MongoException)

  datatype MongoException =
    | Base(code: Int32, message: string, cause: Option<Throwable>)
    | Network(code: Int32, message: string, cause: Option<Throwable>, ioe: Option<IOException>)
    | DuplicateKey(code: Int32, message: string, cause: Option<Throwable>)
    | CursorNotFound(code: Int32, message: string, cause: Option<Throwable>,
                     cursorId: Int64, serverAddress: Option<ServerAddress>)

  /**
   `getCode()`: the stored code. For a constructed Network exception it is one
   of the two client codes, and for a CursorNotFound exception it is -5.
   */
  function GetCode(e: MongoException): (code: Int32)
    ensures code == e.code
    ensures ClassInvariant(e) && e.Network? ==> code == NetworkCode || code == WrappedCauseCode
    ensures ClassInvariant(e) && e.CursorNotFound? ==> code == CursorNotFoundCode
  {
    e.code
  }

  /** `getCursorId()`: the stored cursor id, which is also the id the message names. */
  function GetCursorId(e: MongoException): (cursorId: Int64)
    requires e.CursorNotFound?
    ensures cursorId == e.cursorId
    ensures ClassInvariant(e) ==> CursorPrefix <= e.message
    ensures ClassInvariant(e) ==> Text.ParseLong(Text.Token(e.message[|CursorPrefix|..])) == Some(cursorId as int)
  {
    e.cursorId
  }

  /** `getServerAddress()`: the stored address, possibly null; the message names it as "null" when it is. */
  function GetServerAddress(e: MongoException): (address: Option<ServerAddress>)
    requires e.CursorNotFound?
    ensures address == e.serverAddress
    ensures ClassInvariant(e) ==> e.message == CursorNotFoundMessage(e.cursorId, address)
  {
    e.serverAddress
  }

  /** `Throwable.getCause()`; an I/O failure is a leaf here. */
  function GetCause(t: Throwable): (cause: Option<Throwable>) {
    match t
    case IOFailure(_) => None
    case Foreign(_, _, c) => c
    case Mongo(e) => e.cause
  }

  /** The reference is a `MongoException.Network` (a null reference is not). */
  predicate IsNetwork(t: Option<Throwable>) {
    t.Some? && t.value.Mongo? && t.value.error.Network?
  }

  /** An I/O failure seen as a nullable `Throwable`. */
  function AsThrowable(ioe: Option<IOException>): (t: Option<Throwable>)
    ensures t.None? <==> ioe.None?
    ensures ioe.Some? ==> t == Some(IOFailure(ioe.value))
  {
    match ioe
    case None => None
    case Some(x) => Some(IOFailure(x))
  }

  /** `Throwable.toString()` of an I/O failure: the class name, then ": " and the detail if there is one. */
  function IOExceptionText(ioe: IOException): (s: string)
    ensures ioe.className <= s
    ensures ioe.detail.None? ==> s == ioe.className
    ensures ioe.detail.Some? ==> s[|ioe.className|..] == ": " + ioe.detail.value
  {
    match ioe.detail
    case None => ioe.className
    case Some(d) => ioe.className + ": " + d
  }

  /** The text a nullable `ServerAddress` contributes to a message: Java concatenates null as "null". */
  function AddressText(a: Option<ServerAddress>): (s: string)
    ensures a.None? <==> s == "null"
  {
    match a
    case None => "null"
    case Some(address) =>
      var s := address.host + ":" + Text.LongToString(address.port);
      assert s[|address.host|] == ':' && ':' !in "null";
      s
  }

  const CursorPrefix := "cursor "

  /** A cursor's message, which names the cursor id in a form that reads back to it. */
  function CursorNotFoundMessage(cursorId: Int64, address: Option<ServerAddress>): (m: string)
    ensures CursorPrefix <= m
    ensures Text.ParseLong(Text.Token(m[|CursorPrefix|..])) == Some(cursorId as int)
  {
    var rest := " not found on server " + AddressText(address);
    Text.NumberAfterPrefix(CursorPrefix, cursorId, rest);
    CursorPrefix + Text.LongToString(cursorId) + rest
  }

  /**
   `_massage`: a Network exception is replaced by the I/O failure it wraps;
   every other throwable, and null, is passed on unchanged.
   */
  function Massage(t: Option<Throwable>): (r: Option<Throwable>)
    ensures !IsNetwork(r)
    ensures IsNetwork(t) ==> r == AsThrowable(t.value.error.ioe)
    ensures !IsNetwork(t) ==> r == t
  {
    if IsNetwork(t) then AsThrowable(t.value.error.ioe) else t
  }

  // The four MongoException constructors.

  /** `MongoException(msg)` */
  function FromMessage(msg: string): (r: MongoException)
    ensures r.Base? && GetCode(r) == -3
    ensures r.message == msg && r.cause.None?
    ensures WellFormed(Some(Mongo(r)))
  {
    Base(MessageOnlyCode, msg, None)
  }

  /** `MongoException(code, msg)` */
  function FromCodeAndMessage(code: Int32, msg: string): (r: MongoException)
    ensures r.Base? && GetCode(r) == code
    ensures r.message == msg && r.cause.None?
    ensures WellFormed(Some(Mongo(r)))
  {
    Base(code, msg, None)
  }

  /** `MongoException(msg, t)` */
  function FromMessageAndCause(msg: string, t: Option<Throwable>): (r: MongoException)
    ensures r.Base? && GetCode(r) == -4 && r.message == msg
    ensures !IsNetwork(r.cause)
    ensures !IsNetwork(t) ==> r.cause == t
    ensures IsNetwork(t) ==> r.cause == AsThrowable(t.value.error.ioe)
    ensures WellFormed(t) ==> WellFormed(Some(Mongo(r)))
  {
    Base(WrappedCauseCode, msg, Massage(t))
  }

  /** `MongoException(code, msg, t)` */
  function FromCodeMessageAndCause(code: Int32, msg: string, t: Option<Throwable>): (r: MongoException)
    ensures r.Base? && GetCode(r) == code && r.message == msg
    ensures !IsNetwork(r.cause)
    ensures !IsNetwork(t) ==> r.cause == t
    ensures IsNetwork(t) ==> r.cause == AsThrowable(t.value.error.ioe)
    ensures WellFormed(t) ==> WellFormed(Some(Mongo(r)))
  {
    Base(code, msg, Massage(t))
  }

  // The subclasses' constructors; each builds its superclass part first.

  /** `Network(msg, ioe)`; `ioe` may be null. */
  function NetworkFromMessage(msg: string, ioe: Option<IOException>): (r: MongoException)
    ensures r.Network? && GetCode(r) == -2 && r.message == msg
    ensures r.cause == AsThrowable(ioe) && r.ioe == ioe
    ensures WellFormed(Some(Mongo(r)))
  {
    var base := FromCodeMessageAndCause(NetworkCode, msg, AsThrowable(ioe));
    Network(base.code, base.message, base.cause, ioe)
  }

  /** `Network(ioe)`; the message is the I/O failure's `toString()`, so `ioe` is dereferenced. */
  function NetworkFromIOException(ioe: IOException): (r: MongoException)
    ensures r.Network? && GetCode(r) == -4 && r.message == IOExceptionText(ioe)
    ensures r.cause == Some(IOFailure(ioe)) && r.ioe == Some(ioe)
    ensures WellFormed(Some(Mongo(r)))
  {
    var base := FromMessageAndCause(IOExceptionText(ioe), Some(IOFailure(ioe)));
    Network(base.code, base.message, base.cause, Some(ioe))
  }

  /** `DuplicateKey(code, msg)` */
  function NewDuplicateKey(code: Int32, msg: string): (r: MongoException)
    ensures r.DuplicateKey? && GetCode(r) == code
    ensures r.message == msg && r.cause.None?
    ensures WellFormed(Some(Mongo(r)))
  {
    var base := FromCodeAndMessage(code, msg);
    DuplicateKey(base.code, base.message, base.cause)
  }

  /** `CursorNotFound(cursorId, serverAddress)`; the address may be null. */
  function NewCursorNotFound(cursorId: Int64, address: Option<ServerAddress>): (r: MongoException)
    ensures r.CursorNotFound? && GetCode(r) == -5 && r.cause.None?
    ensures GetCursorId(r) == cursorId && GetServerAddress(r) == address
    ensures r.message == CursorNotFoundMessage(cursorId, address)
    ensures WellFormed(Some(Mongo(r)))
  {
    var base := FromCodeAndMessage(CursorNotFoundCode, CursorNotFoundMessage(cursorId, address));
    CursorNotFound(base.code, base.message, base.cause, cursorId, address)
  }

  /**
   What every exception the constructors build satisfies about itself: its
   cause is never a Network exception, a Network exception's cause is the
   I/O failure it wraps, DuplicateKey and CursorNotFound exceptions have no
   cause, and a CursorNotFound exception has its code and message.
   */
  predicate ClassInvariant(e: MongoException) {
    && !IsNetwork(e.cause)
    && (e.DuplicateKey? || e.CursorNotFound? ==> e.cause.None?)
    && (e.Network? ==>
          && e.cause == AsThrowable(e.ioe)
          && (e.code == NetworkCode
              || (e.code == WrappedCauseCode && e.ioe.Some? && e.message == IOExceptionText(e.ioe.value))))
    && (e.CursorNotFound? ==>
          e.code == CursorNotFoundCode && e.message == CursorNotFoundMessage(e.cursorId, e.serverAddress))
  }

  /** Every Mongo exception along the cause chain keeps its class invariant. */
  predicate WellFormed(t: Option<Throwable>)
    decreases t
  {
    match t
    case None => true
    case Some(IOFailure(_)) => true
    case Some(Foreign(_, _, c)) => WellFormed(c)
    case Some(Mongo(e)) => ClassInvariant(e) && WellFormed(e.cause)
  }

  /**
   The class invariant describes exactly the constructible exceptions: each
   constructor's result satisfies it (see their contracts), and every value
   that satisfies it is what one of the constructors returns.
   */
  lemma ClassInvariantIsConstructible(e: MongoException)
    requires ClassInvariant(e)
    ensures e.Base? ==> e == FromCodeMessageAndCause(e.code, e.message, e.cause)
    ensures e.Network? && e.code == NetworkCode ==> e == NetworkFromMessage(e.message, e.ioe)
    ensures e.Network? && e.code != NetworkCode ==> e.ioe.Some? && e == NetworkFromIOException(e.ioe.value)
    ensures e.DuplicateKey? ==> e == NewDuplicateKey(e.code, e.message)
    ensures e.CursorNotFound? ==> e == NewCursorNotFound(e.cursorId, e.serverAddress)
  {
  }
}
