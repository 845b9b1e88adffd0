/** Status codes, run verdicts and the integer width shared by every module. */
module Status {

  /** C `uint32_t`. Arithmetic on it is unbounded in Dafny, so wrap-around is written out where it can happen. */
  type uint32 = n: int | 0 <= n < 0x1_0000_0000

  datatype Option<+T> = None | Some(value: T)

  datatype Result<+T> = Success(value: T) | Failure(status: StatusCode)

  datatype StatusCode =
    | StatusOk
    | InvalidArgument
    | ParseError
    | IoError
    | Timeout
    | BufferOverflow
    | InternalError

  /** ENGINE_OK, ENGINE_WARNING, ENGINE_SHUTDOWN and ENGINE_ERROR. */
  datatype Verdict = ResultOk | ResultWarning | ResultShutdown | ResultError
}
