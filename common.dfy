/** Shared result types of the tau model. */
module Common {

  datatype Option<+T> = None | Some(value: T)

  /** The errors the modelled code returns. Errors raised by collaborators
      that are not part of the model carry their message. */
  datatype Error =
    | NoExecutorFound               // no executor creator accepts a hook
    | DifferentBackendTypes         // two files declare backends of different types
    | Uninitialized                 // destroy pre-flight: a module has not been initialized
    | HookFailed(message: string)   // a hook command returned an error
    | External(message: string)     // an error from a collaborator outside the model
}
