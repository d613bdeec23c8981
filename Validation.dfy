/** What a failed request-body check reports: the field's name and the
    message attached to the check that failed. */
module Validation {
  datatype ValidationError = ValidationError(param: string, msg: string)

  /** The error of one check: none when it holds, its message otherwise. */
  function Check(ok: bool, param: string, msg: string): (errs: seq<ValidationError>)
    ensures errs == [] <==> ok
    ensures !ok ==> errs == [ValidationError(param, msg)]
  {
    if ok then [] else [ValidationError(param, msg)]
  }
}
