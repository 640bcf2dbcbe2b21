/** Option and Result values for optional parameters and for the one failure the simulator reports. */
module Wrappers {

  datatype Option<+T> = None | Some(value: T)

  /** The ways a run can stop before computing a regret. */
  datatype Error = MissingEpsilon

  datatype Result<+T> = Ok(value: T) | Err(error: Error)
}
