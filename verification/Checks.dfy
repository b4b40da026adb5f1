/** Check results, and the Option type. */
module Checks {
  import opened Clock

  datatype Option<+T> = None | Some(value: T)

  datatype Status = OK | Warn | Critical | Unknown

  datatype CheckResult = CheckResult(component: string, status: Status, message: string, checkedAt: Time)

  predicate IsBad(s: Status) {
    s == Warn || s == Critical
  }
}
