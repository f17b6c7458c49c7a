/** Optional values and pass/fail outcomes shared by the modules of this model. */
module Outcomes {

  datatype Option<+T> = None | Some(value: T)

  /** Either success or an error carrying a diagnostic message. */
  datatype Outcome = Pass | Fail(message: string)
}
