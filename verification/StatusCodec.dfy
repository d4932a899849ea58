/** UCX status codes and their encoding in 64-bit "status pointers". */
module StatusCodec {
  import opened Wrappers

  datatype UcsStatus =
    | UcsOk | InProgress
    | NoMessage | NoResource | IoError | NoMemory | InvalidParam | Unreachable | InvalidAddr | NotImplemented
    | MessageTruncated | NoProgress | BufferTooSmall | NoElem | SomeConnectsFailed | NoDevice | Busy | Canceled
    | ShmemSegment | AlreadyExists | OutOfRange | TimedOut | ExceedsLimit | Unsupported | Rejected
    | NotConnected | ConnectionReset | FirstLinkFailure | LastLinkFailure | FirstEndpointFailure
    | EndpointTimeout | LastEndpointFailure | ErrLast

  /** The discriminant of the status in the bindings, an `i8`. */
  function Code(s: UcsStatus): int {
    match s
    case UcsOk => 0
    case InProgress => 1
    case NoMessage => -1
    case NoResource => -2
    case IoError => -3
    case NoMemory => -4
    case InvalidParam => -5
    case Unreachable => -6
    case InvalidAddr => -7
    case NotImplemented => -8
    case MessageTruncated => -9
    case NoProgress => -10
    case BufferTooSmall => -11
    case NoElem => -12
    case SomeConnectsFailed => -13
    case NoDevice => -14
    case Busy => -15
    case Canceled => -16
    case ShmemSegment => -17
    case AlreadyExists => -18
    case OutOfRange => -19
    case TimedOut => -20
    case ExceedsLimit => -21
    case Unsupported => -22
    case Rejected => -23
    case NotConnected => -24
    case ConnectionReset => -25
    case FirstLinkFailure => -40
    case LastLinkFailure => -59
    case FirstEndpointFailure => -60
    case EndpointTimeout => -80
    case LastEndpointFailure => -89
    case ErrLast => -100
  }

  /** A pointer-sized word. */
  newtype Word = x: int | 0 <= x < 0x1_0000_0000_0000_0000

  /** `x as isize as usize` for an `x` that fits `isize`: sign extension. */
  function SignExtend(x: int): Word
    requires -TWO_63 <= x < TWO_63
  {
    if x < 0 then (x + TWO_64) as Word else x as Word
  }

  /** `p as isize as i32`: reinterpretation followed by truncation. */
  function TruncateToI32(p: Word): int {
    var isize := if p as int >= TWO_63 then p as int - TWO_64 else p as int;
    var low := isize % TWO_32;
    if low >= TWO_31 then low - TWO_32 else low
  }

  predicate StatusPtrIsErr(p: Word) {
    p >= SignExtend(Code(ErrLast))
  }

  predicate IsErr(s: UcsStatus) {
    Code(s) < 0
  }

  function StatusFromPtr(p: Word): UcsStatus {
    StatusOfCode(TruncateToI32(p))
  }

  function StatusOfCode(code: int): UcsStatus {
    match code
    case -1 => NoMessage
    case -2 => NoResource
    case -3 => IoError
    case -4 => NoMemory
    case -5 => InvalidParam
    case -6 => Unreachable
    case -7 => InvalidAddr
    case -8 => NotImplemented
    case -9 => MessageTruncated
    case -10 => NoProgress
    case -11 => BufferTooSmall
    case -12 => NoElem
    case -13 => SomeConnectsFailed
    case -14 => NoDevice
    case -15 => Busy
    case -16 => Canceled
    case -17 => ShmemSegment
    case -18 => AlreadyExists
    case -19 => OutOfRange
    case -20 => TimedOut
    case -21 => ExceedsLimit
    case -22 => Unsupported
    case -23 => Rejected
    case -24 => NotConnected
    case -25 => ConnectionReset
    case -40 => FirstLinkFailure
    case -59 => LastLinkFailure
    case -60 => FirstEndpointFailure
    case -80 => EndpointTimeout
    case -89 => LastEndpointFailure
    case -100 => ErrLast
    case _ => ErrLast
  }

  /** What a status pointer turns into: an error, nothing to wait for, a request, or a debug panic. */
  datatype Decoded = Failed(status: UcsStatus) | Immediate | Pending(request: Word) | Panicked

  /** `status_ptr_to_result`; `debug` says whether debug assertions are compiled in. */
  function StatusPtrToResult(p: Word, debug: bool): Decoded {
    if StatusPtrIsErr(p) then Failed(StatusFromPtr(p))
    else if debug && p == SignExtend(Code(InProgress)) then Panicked
    else if p <= SignExtend(Code(InProgress)) then Immediate
    else Pending(p)
  }

  function StatusToResult(s: UcsStatus): Result<(), UcsStatus> {
    if IsErr(s) then Err(s) else Ok(())
  }

  /** `Request::check_finished` on a live request whose status is `s`. */
  function CheckFinished(s: UcsStatus): Result<bool, UcsStatus> {
    var p := SignExtend(Code(s));
    if StatusPtrIsErr(p) then Err(StatusFromPtr(p)) else Ok(s == UcsOk)
  }

  /** An operation status is final once it is not "in progress". */
  predicate Terminal(s: UcsStatus) {
    s != InProgress
  }

  /**
   The decoder splits the 2^64 words: errors are exactly the top 100, word 0 is immediate success,
   word 1 is the value UCX must never return, and every other word is a request with that address.
   */
  lemma DecodePartition(p: Word, debug: bool)
    ensures StatusPtrToResult(p, debug).Failed? <==> p as int >= TWO_64 - 100
    ensures StatusPtrToResult(p, debug) == Immediate <==> p == 0 || (p == 1 && !debug)
    ensures StatusPtrToResult(p, debug) == Panicked <==> p == 1 && debug
    ensures StatusPtrToResult(p, debug).Pending? <==> 1 < p as int < TWO_64 - 100
    ensures StatusPtrToResult(p, debug).Pending? ==> StatusPtrToResult(p, debug).request == p
  {
  }

  lemma CodeOfStatus(s: UcsStatus)
    requires IsErr(s)
    ensures -100 <= Code(s) && StatusOfCode(Code(s)) == s
  {
  }

  lemma StatusOfErrorCode(code: int)
    requires -100 <= code < 0
    ensures var s := StatusOfCode(code); IsErr(s) && (Code(s) == code || s == ErrLast)
  {
  }

  lemma TruncateExtended(code: int)
    requires -TWO_31 <= code < TWO_31
    ensures TruncateToI32(SignExtend(code)) == code
  {
  }

  /** Every error code survives sign extension and decoding. */
  lemma ErrorRoundTrip(s: UcsStatus, debug: bool)
    requires IsErr(s)
    ensures StatusPtrToResult(SignExtend(Code(s)), debug) == Failed(s)
  {
    TruncateExtended(Code(s));
    CodeOfStatus(s);
  }

  /** A word of the error window decodes to the error it encodes, or to `ErrLast` when it encodes none. */
  lemma ErrorWindow(p: Word, debug: bool)
    requires p as int >= TWO_64 - 100
    ensures var s := StatusPtrToResult(p, debug).status; IsErr(s) && (Code(s) == p as int - TWO_64 || s == ErrLast)
  {
    var code := p as int - TWO_64;
    TruncateExtended(code);
    assert SignExtend(code) == p;
    StatusOfErrorCode(code);
  }

  /** So re-encoding gives the word back exactly when some status has that code. */
  lemma ErrorWindowReencodes(p: Word, debug: bool)
    requires p as int >= TWO_64 - 100
    ensures SignExtend(Code(StatusPtrToResult(p, debug).status)) == p <==> exists t :: Code(t) == p as int - TWO_64
  {
    var s := StatusPtrToResult(p, debug).status;
    ErrorWindow(p, debug);
    if t :| Code(t) == p as int - TWO_64 {
      assert SignExtend(Code(t)) == p;
      ErrorRoundTrip(t, debug);
    }
    if SignExtend(Code(s)) == p { assert Code(s) == p as int - TWO_64; }
  }

  /** The numbers of the bindings, which the decoder repeats; the two successes, then the errors in four groups. */
  lemma CodesOfTheBindings()
    ensures Code(UcsOk) == 0 && Code(InProgress) == 1
  {
  }

  lemma ResourceCodesOfTheBindings()
    ensures Code(NoMessage) == -1 && Code(NoResource) == -2 && Code(IoError) == -3 && Code(NoMemory) == -4
    ensures Code(InvalidParam) == -5 && Code(Unreachable) == -6 && Code(InvalidAddr) == -7 && Code(NotImplemented) == -8
  {
  }

  lemma OperationCodesOfTheBindings()
    ensures Code(MessageTruncated) == -9 && Code(NoProgress) == -10 && Code(BufferTooSmall) == -11 && Code(NoElem) == -12
    ensures Code(SomeConnectsFailed) == -13 && Code(NoDevice) == -14 && Code(Busy) == -15 && Code(Canceled) == -16
  {
  }

  lemma ConnectionCodesOfTheBindings()
    ensures Code(ShmemSegment) == -17 && Code(AlreadyExists) == -18 && Code(OutOfRange) == -19 && Code(TimedOut) == -20
    ensures Code(ExceedsLimit) == -21 && Code(Unsupported) == -22 && Code(Rejected) == -23 && Code(NotConnected) == -24
  {
  }

  lemma EndpointCodesOfTheBindings()
    ensures Code(ConnectionReset) == -25 && Code(FirstLinkFailure) == -40 && Code(LastLinkFailure) == -59
    ensures Code(FirstEndpointFailure) == -60 && Code(EndpointTimeout) == -80 && Code(LastEndpointFailure) == -89
    ensures Code(ErrLast) == -100
  {
  }

  /** What checking a request means: finished, still pending, or failed with that status. */
  function Outcome(s: UcsStatus): Result<bool, UcsStatus> {
    match s
    case UcsOk => Ok(true)
    case InProgress => Ok(false)
    case _ => Err(s)
  }

  /**
   `check_finished`, which goes through the pointer encoding, means just that, and it reports exactly
   the errors that `status_to_result` reports.
   */
  lemma CheckFinishedMeaning(s: UcsStatus)
    ensures CheckFinished(s) == Outcome(s)
    ensures CheckFinished(s).Err? <==> StatusToResult(s).Err?
    ensures CheckFinished(s).Err? ==> CheckFinished(s).error == StatusToResult(s).error == s
    ensures CheckFinished(UcsOk) == Ok(true) && CheckFinished(InProgress) == Ok(false)
    ensures CheckFinished(s).Err? <==> s != UcsOk && s != InProgress
  {
    if IsErr(s) { ErrorRoundTrip(s, false); }
  }

  /** `Request::test`: the status reported by UCX, as a result. */
  function TestStatus(s: UcsStatus): Result<(), UcsStatus> {
    StatusToResult(s)
  }

  /** `Request::stream_recv_test` on a live request: UCX reports `s` and leaves `length` behind. */
  function StreamRecvTest(s: UcsStatus, length: nat): Result<nat, UcsStatus> {
    match StatusToResult(s)
    case Ok(_) => Ok(length)
    case Err(e) => Err(e)
  }

  /** What the documentation of both tests promises: `Ok` only for a completed operation. */
  function PromisedTest<T>(s: UcsStatus, value: T): Result<T, UcsStatus> {
    if s == UcsOk then Ok(value) else Err(s)
  }

  /**
   Both tests keep that promise for every status except "in progress", which they report as success
   because its code is not negative.
   */
  lemma TestsKeepPromiseUnlessPending(s: UcsStatus, length: nat)
    ensures StreamRecvTest(s, length) == PromisedTest(s, length) <==> Terminal(s)
    ensures TestStatus(s) == PromisedTest(s, ()) <==> Terminal(s)
    ensures StreamRecvTest(InProgress, 0) == Ok(0) && PromisedTest(InProgress, 0) == Err(InProgress)
  {
  }
}
