/** The return codes shared by every component. */
module Codes {
  import opened Common

  datatype ResultCode =
    | OK
    | AUTH_FAILED
    | RANK_INSUFFICIENT
    | SESSION_EXPIRED
    | JURISDICTION_DENIED
    | NOT_FOUND
    | ALREADY_EXISTS
    | INVALID_INPUT
    | INVALID_ARGUMENT
    | DB_ERROR
    | FOREIGN_KEY_VIOLATION
    | FILE_SYSTEM_ERROR
    | INVALID_STATE
    | DUTY_INACTIVE
    | RECORD_LOCKED
    | ANALYSIS_FAILED
    | THRESHOLD_NOT_MET

  function Number(rc: ResultCode): nat {
    match rc
    case OK => 0
    case AUTH_FAILED => 1
    case RANK_INSUFFICIENT => 2
    case SESSION_EXPIRED => 3
    case JURISDICTION_DENIED => 4
    case NOT_FOUND => 10
    case ALREADY_EXISTS => 11
    case INVALID_INPUT => 12
    case INVALID_ARGUMENT => 13
    case DB_ERROR => 20
    case FOREIGN_KEY_VIOLATION => 21
    case FILE_SYSTEM_ERROR => 22
    case INVALID_STATE => 30
    case DUTY_INACTIVE => 31
    case RECORD_LOCKED => 32
    case ANALYSIS_FAILED => 40
    case THRESHOLD_NOT_MET => 41
  }

  /** What a reader of the status number makes of it. */
  function FromNumber(n: nat): Option<ResultCode> {
    if n == 0 then Some(OK)
    else if n == 1 then Some(AUTH_FAILED)
    else if n == 2 then Some(RANK_INSUFFICIENT)
    else if n == 3 then Some(SESSION_EXPIRED)
    else if n == 4 then Some(JURISDICTION_DENIED)
    else if n == 10 then Some(NOT_FOUND)
    else if n == 11 then Some(ALREADY_EXISTS)
    else if n == 12 then Some(INVALID_INPUT)
    else if n == 13 then Some(INVALID_ARGUMENT)
    else if n == 20 then Some(DB_ERROR)
    else if n == 21 then Some(FOREIGN_KEY_VIOLATION)
    else if n == 22 then Some(FILE_SYSTEM_ERROR)
    else if n == 30 then Some(INVALID_STATE)
    else if n == 31 then Some(DUTY_INACTIVE)
    else if n == 32 then Some(RECORD_LOCKED)
    else if n == 40 then Some(ANALYSIS_FAILED)
    else if n == 41 then Some(THRESHOLD_NOT_MET)
    else None
  }

  /** Numbers and codes are one to one. */
  lemma NumberRoundTrip(rc: ResultCode, n: nat)
    ensures FromNumber(Number(rc)) == Some(rc)
    ensures FromNumber(n).Some? ==> Number(FromNumber(n).value) == n
  {
  }
}
