/** The final states of a download item. */
module ClientStates {
  datatype ClientState = Done | AlreadyDone | FoundInPcache | FileNotFound | FailValidate | Failed

  predicate Succeeded(s: ClientState) {
    s == AlreadyDone || s == Done || s == FoundInPcache
  }
}
