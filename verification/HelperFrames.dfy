/** The frames a helper writes to its supervisor, with the fields anything here depends on. */
module HelperFrames {
  import opened Wrappers

  datatype FatalReason = BindFailed | StateChange | BadInit | KeyInArgv | UnsafeDebugEnv | MissingElement

  /** Reasons that starting the helper again could fix. */
  predicate IsRetryable(reason: FatalReason) {
    reason.BindFailed? || reason.StateChange?
  }

  datatype Frame =
    | Ready(v: nat)
    | Trial(candidate: nat, trial: nat)
    | AuthOk(first: bool, roc: nat, sn: Option<nat>, named: Option<nat>)
    | AuthFail(failed: nat, searchFrom: Option<nat>)
    | AuthLost
    | IndexReport(index: nat)
    | ProducingStarted
    | Stopped(last: Option<nat>)
    | Stats(inputBytes: nat, authenticated: nat)
    | Fatal(reason: FatalReason)
    | Notice  // error, warning, eos, unparsed: logged and nothing else
}
