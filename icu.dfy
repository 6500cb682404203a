/**
 * The part of the ICU library that `normalize` relies on: status codes, the
 * "required size" calling convention of `ucnv_toUChars` and
 * `unorm2_normalize`, and the handle-returning calls. The UTF-8 decoding and
 * the NFKC normalization themselves are uninterpreted functions.
 */
module Icu {
  import opened Types

  /** A `UErrorCode`: negative values are warnings, positive ones failures. */
  type Status = int

  /** U_ZERO_ERROR */
  const ZeroError: Status := 0
  /** U_BUFFER_OVERFLOW_ERROR */
  const BufferOverflowError: Status := 15
  /** U_STRING_NOT_TERMINATED_WARNING */
  const StringNotTerminatedWarning: Status := -124

  /** U_FAILURE */
  predicate Failure(s: Status)
  {
    s > ZeroError
  }

  /** A failure other than "buffer too small". */
  type ErrorCode = s: Status | s > ZeroError && s != BufferOverflowError witness 1

  /** What a conversion produces when it is given room enough: all its units, or an error. */
  datatype Conversion = Converted(units: seq<CodeUnit>) | Failed(code: ErrorCode)

  /** What one call reports: the size it needed, the status it leaves, the units it stored. */
  datatype Reply = Reply(size: nat, status: Status, written: seq<CodeUnit>)

  /**
   * One call with a destination of `capacity` units and an incoming status.
   * A call entered with a failure status does nothing and returns 0. A
   * result that fits is stored followed by a terminating 0 when there is
   * room for it, and with U_STRING_NOT_TERMINATED_WARNING when there is
   * not. A result that does not fit is reported with its full size and
   * U_BUFFER_OVERFLOW_ERROR; the destination's contents are then
   * unspecified, and the model stores the part that fits.
   */
  function Preflight(c: Conversion, capacity: nat, status: Status): (r: Reply)
    ensures Failure(status) ==> r == Reply(0, status, [])
    ensures !Failure(status) && c.Failed? ==> r.status == c.code && r.written == []
    ensures |r.written| <= capacity
    ensures !Failure(status) && c.Converted? ==>
      && r.size == |c.units|
      && (r.status == BufferOverflowError <==> |c.units| > capacity)
      && (|c.units| > capacity ==> |r.written| <= |c.units| && r.written == c.units[..|r.written|])
      && (|c.units| == capacity ==> r.written == c.units && r.status == StringNotTerminatedWarning)
      && (|c.units| < capacity ==>
            r.written == c.units + [0] && !Failure(r.status) && r.status != StringNotTerminatedWarning)
  {
    if Failure(status) then Reply(0, status, [])
    else match c
      case Failed(code) => Reply(0, code, [])
      case Converted(units) =>
        if |units| > capacity then Reply(|units|, BufferOverflowError, units[..capacity])
        else if |units| == capacity then Reply(|units|, StringNotTerminatedWarning, units)
        else Reply(|units|, if status == StringNotTerminatedWarning then ZeroError else status, units + [0])
  }

  /** What `ucnv_open` or `unorm2_getNFKCInstance` returns. */
  datatype OpenReply = Opened(handle: Handle) | OpenFailed(code: ErrorCode)

  /** The library as the model sees it. */
  datatype Library = Library(
    converterOpen: OpenReply,            // ucnv_open("utf-8", &status)
    nfkcInstance: OpenReply,             // unorm2_getNFKCInstance(&status)
    toUtf16: seq<Byte> -> Conversion,    // UTF-8 to UTF-16 (ucnv_toUChars)
    nfkc: seq<CodeUnit> -> Conversion,   // NFKC (unorm2_normalize)
    fromUtf8: seq<Byte> -> seq<CodeUnit>)  // icu::UnicodeString::fromUTF8
}
