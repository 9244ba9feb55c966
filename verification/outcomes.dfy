/** The exceptions that src/Page.js throws, as values. */
module Outcomes {

  /** One constructor per `throw new Error(...)` of the activation logic. */
  datatype Error =
    | ActivationStatusUnsupported   // Activator.toggleBasedOnStatus, unknown status
    | InvalidActivationStatus       // Page.setActivationStatus, unknown status
    | InvalidPageComponent          // Page.setActivationStatus, unknown region
    | InvalidComponentItem          // Page.setActivationStatus, unknown item under the region

  /** Either the call returned normally with a value, or it threw. */
  datatype Result<+T> = Success(value: T) | Failure(error: Error)
}
